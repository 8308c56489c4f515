/** The `submit` handlers of the signup and login forms in static/js/app.js. Both run the
    same loop over the form's `.input-field` elements: a blank input is marked and sets the
    form's flag to false, a filled one is cleared and sets it to true; after the loop the
    submission is prevented unless the flag is `true`. The flag is overwritten on every
    input, so the last input alone decides. */
module FormGuard {
  import opened Common
  import opened JsText

  /** One `.input-field`: its `name` attribute and its current value. */
  datatype Field = Field(name: string, value: string)

  /** How the loop leaves an input: a danger border with the error paragraph after it, or
      the light border with no error paragraph. */
  datatype Mark = Danger(message: string) | Cleared

  /** `input.value.trim() !== ""`. */
  predicate Filled(f: Field) {
    Trim(f.value) != ""
  }

  /** The mark the loop gives one input. */
  function MarkOf(f: Field): (m: Mark)
    ensures m.Danger? <==> !Filled(f)
  {
    if Filled(f) then Cleared else Danger(f.name + " cannot be empty")
  }

  /** An input is marked as an error exactly when its value is only white space. */
  lemma MarkIffBlank(f: Field)
    ensures MarkOf(f).Danger? <==> IsBlank(f.value)
    ensures MarkOf(f).Danger? ==> MarkOf(f).message == f.name + " cannot be empty"
  {
    TrimEmptyIffBlank(f.value);
  }

  /** The flag after the loop visits `inputs` in order, starting from `flag` (`None` is the
      `undefined` the flag holds before the first submission): each input overwrites it. */
  function FlagAfter(flag: Option<bool>, inputs: seq<Field>): Option<bool>
    decreases |inputs|
  {
    if inputs == [] then flag else FlagAfter(Some(Filled(inputs[0])), inputs[1..])
  }

  /** As written, the flag ends as "the last input is filled"; with no inputs it keeps its
      previous value. */
  lemma {:induction false} FlagIsLastField(flag: Option<bool>, inputs: seq<Field>)
    ensures inputs == [] ==> FlagAfter(flag, inputs) == flag
    ensures inputs != [] ==> FlagAfter(flag, inputs) == Some(Filled(inputs[|inputs| - 1]))
    decreases |inputs|
  {
    if inputs != [] {
      FlagIsLastField(Some(Filled(inputs[0])), inputs[1..]);
    }
  }

  /** What the handler evidently means to check: every input is filled. */
  predicate AllFilled(inputs: seq<Field>) {
    forall i :: 0 <= i < |inputs| ==> Filled(inputs[i])
  }

  /** As written, an earlier blank input does not block the submission when the last one is
      filled: the username is empty and yet the form is sent. */
  lemma EarlierBlankFieldAccepted()
    ensures var inputs := [Field("username", ""), Field("password", "secret")];
      FlagAfter(None, inputs) == Some(true) && !AllFilled(inputs)
  {
    var inputs := [Field("username", ""), Field("password", "secret")];
    FlagIsLastField(None, inputs);
    assert Trim("") == "";
    assert Trim("secret") != "" by {
      TrimEmptyIffBlank("secret");
      assert !IsWhite("secret"[0]);
    }
    assert !Filled(inputs[0]);
  }

  /** Every submission the corrected check lets through, the loop as written lets through. */
  lemma CorrectedIsStricter(flag: Option<bool>, inputs: seq<Field>)
    requires inputs != [] && AllFilled(inputs)
    ensures FlagAfter(flag, inputs) == Some(true)
  {
    FlagIsLastField(flag, inputs);
  }

  /** The marks after the loop has visited the first `n` inputs, starting from `marks`. */
  function Remark(marks: map<nat, Mark>, inputs: seq<Field>, n: nat): map<nat, Mark>
    requires n <= |inputs|
  {
    if n == 0 then marks else Remark(marks, inputs, n - 1)[n - 1 := MarkOf(inputs[n - 1])]
  }

  /** Each of the first `n` inputs carries the mark of its own value; any other entry is
      as it was. */
  lemma {:induction false} RemarkSpec(marks: map<nat, Mark>, inputs: seq<Field>, n: nat, k: nat)
    requires n <= |inputs|
    ensures k in Remark(marks, inputs, n) <==> k < n || k in marks
    ensures k < n ==> Remark(marks, inputs, n)[k] == MarkOf(inputs[k])
    ensures n <= k && k in marks ==> Remark(marks, inputs, n)[k] == marks[k]
  {
    if n > 0 {
      RemarkSpec(marks, inputs, n - 1, k);
    }
  }

  /** One form and the state its handler keeps between submissions. */
  class Form {
    /** `isSignupValid` / `isLoginValid`; `None` is `undefined`. */
    var valid: Option<bool>
    /** The mark each input (by position) currently carries. */
    var marks: map<nat, Mark>

    /** `let isSignupValid;`: no flag and no marks yet. */
    constructor ()
      ensures valid == None && marks == map[]
    {
      valid := None;
      marks := map[];
    }

    /** The `submit` handler as written: marks every input, overwrites the flag on each,
        and prevents the submission unless the flag is `true`. */
    method Submit(inputs: seq<Field>) returns (prevented: bool)
      modifies this
      ensures valid == FlagAfter(old(valid), inputs)
      ensures inputs == [] ==> valid == old(valid)
      ensures inputs != [] ==> valid == Some(Filled(inputs[|inputs| - 1]))
      ensures marks == Remark(old(marks), inputs, |inputs|)
      ensures prevented <==> valid != Some(true)
    {
      var i := 0;
      while i < |inputs|
        invariant i <= |inputs|
        invariant FlagAfter(valid, inputs[i..]) == FlagAfter(old(valid), inputs)
        invariant marks == Remark(old(marks), inputs, i)
      {
        assert inputs[i..][1..] == inputs[i + 1..];
        if Trim(inputs[i].value) == "" {
          valid := Some(false);
          marks := marks[i := Danger(inputs[i].name + " cannot be empty")];
        } else {
          marks := marks[i := Cleared];
          valid := Some(true);
        }
        i := i + 1;
      }
      FlagIsLastField(old(valid), inputs);
      prevented := valid != Some(true);
    }

    /** The corrected handler: the same marks, and the flag is true only when every input
        is filled. */
    method SubmitAllFilled(inputs: seq<Field>) returns (prevented: bool)
      modifies this
      ensures valid == Some(AllFilled(inputs))
      ensures marks == Remark(old(marks), inputs, |inputs|)
      ensures prevented <==> !AllFilled(inputs)
    {
      var ok := true;
      var i := 0;
      while i < |inputs|
        invariant i <= |inputs|
        invariant ok <==> AllFilled(inputs[..i])
        invariant marks == Remark(old(marks), inputs, i)
      {
        assert inputs[..i + 1] == inputs[..i] + [inputs[i]];
        marks := marks[i := MarkOf(inputs[i])];
        ok := ok && Filled(inputs[i]);
        i := i + 1;
      }
      assert inputs[..i] == inputs;
      valid := Some(ok);
      prevented := !ok;
    }
  }
}
