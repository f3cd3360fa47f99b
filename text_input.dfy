/**
  The typed-question box (src/components/TextInput.tsx): one text field,
  submitted trimmed and then cleared.
 */
module TextInput {
  import opened Optional
  import opened Text

  /**
    What `handleSubmit` hands to `onSubmit` for the field's `text`: its
    trimmed form when that is not empty, otherwise nothing.
   */
  function Submission(text: string): (r: Option<string>)
    ensures r.Some? <==> !AllSpace(text)
    ensures r.Some? ==> r.value == Trim(text) && r.value != "" && Tight(r.value)
    ensures r.Some? ==> exists i :: Framed(text, r.value, i)
    ensures r.Some? ==> Trim(r.value) == r.value
  {
    var t := Trim(text);
    if t == "" then None
    else
      TrimIdempotent(text);
      Some(t)
  }

  /** Whether a key press is the plain Enter that submits. */
  function SubmitsOnKey(key: string, shiftKey: bool): (b: bool)
    ensures b ==> key == "Enter"
    ensures shiftKey ==> !b
    ensures key == "Enter" && !shiftKey ==> b
  {
    key == "Enter" && !shiftKey
  }

  class Field {
    var inputText: string

    constructor ()
      ensures inputText == ""
    {
      inputText := "";
    }

    /** The textarea's `onChange`: the field takes the new value as it is. */
    method OnChange(value: string)
      modifies this
      ensures inputText == value
    {
      inputText := value;
    }

    /** `handleSubmit`; `submitted` is the argument `onSubmit` was called with, if it was. */
    method HandleSubmit() returns (submitted: Option<string>)
      modifies this
      ensures submitted == Submission(old(inputText))
      ensures inputText == if submitted.Some? then "" else old(inputText)
    {
      var trimmed := Trim(inputText);
      if trimmed != "" {
        submitted := Some(trimmed);
        inputText := "";
      } else {
        submitted := None;
      }
    }

    /**
      `handleKeyDown`. `prevented` says whether the default (a new line)
      was suppressed; only a plain Enter submits.
     */
    method HandleKeyDown(key: string, shiftKey: bool) returns (prevented: bool, submitted: Option<string>)
      modifies this
      ensures prevented <==> SubmitsOnKey(key, shiftKey)
      ensures submitted == if prevented then Submission(old(inputText)) else None
      ensures inputText == if submitted.Some? then "" else old(inputText)
    {
      prevented := SubmitsOnKey(key, shiftKey);
      if prevented {
        submitted := HandleSubmit();
      } else {
        submitted := None;
      }
    }

    /** The send button's `disabled`: set by the parent, or nothing to submit. */
    function SendDisabled(disabled: bool): (r: bool)
      reads this
      ensures r <==> disabled || AllSpace(inputText)
      ensures !r ==> Submission(inputText).Some?
    {
      disabled || Trim(inputText) == ""
    }
  }
}
