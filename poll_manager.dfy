/** The poll creation form of the browser: a question and an editable list
    of at least two option texts, and the guard that decides whether a
    `create-poll` event is sent. */
module PollManager {
  import opened Wire
  import opened Seqs
  import opened JsMap

  /** The characters `String.prototype.trim` strips: the ECMAScript
      WhiteSpace code points (tab, vertical tab, form feed, space, no-break
      space, the byte order mark and the Unicode space separators) and the
      LineTerminator code points (line feed, carriage return, line and
      paragraph separators). */
  predicate IsJsWhitespace(c: char) {
    || c == '\t' || c == '\n' || c == '\U{000B}' || c == '\U{000C}' || c == '\r'
    || c == ' ' || c == '\U{00A0}' || c == '\U{1680}'
    || ('\U{2000}' <= c <= '\U{200A}')
    || c == '\U{2028}' || c == '\U{2029}' || c == '\U{202F}' || c == '\U{205F}'
    || c == '\U{3000}' || c == '\U{FEFF}'
  }

  /** Leading whitespace removed: a suffix of `s` that starts with a
      non-whitespace character (or is empty), all of whose dropped
      characters are whitespace. */
  function TrimStart(s: string): (r: string)
    ensures |r| <= |s| && r == s[|s| - |r|..]
    ensures r == [] || !IsJsWhitespace(r[0])
    ensures forall i | 0 <= i < |s| - |r| :: IsJsWhitespace(s[i])
  {
    if s != [] && IsJsWhitespace(s[0]) then TrimStart(s[1..]) else s
  }

  /** Trailing whitespace removed, symmetrically. */
  function TrimEnd(s: string): (r: string)
    ensures |r| <= |s| && r == s[..|r|]
    ensures r == [] || !IsJsWhitespace(r[|r| - 1])
    ensures forall i | |r| <= i < |s| :: IsJsWhitespace(s[i])
  {
    if s != [] && IsJsWhitespace(s[|s| - 1]) then TrimEnd(s[..|s| - 1]) else s
  }

  /** `s.trim()`: the slice of `s` that starts and ends with a
      non-whitespace character (or is empty), with only whitespace before
      and after it. */
  function Trim(s: string): (r: string)
    ensures r == [] || (!IsJsWhitespace(r[0]) && !IsJsWhitespace(r[|r| - 1]))
    ensures var a := |s| - |TrimStart(s)|;
      && a + |r| <= |s| && r == s[a..a + |r|]
      && (forall i | 0 <= i < a :: IsJsWhitespace(s[i]))
      && (forall i | a + |r| <= i < |s| :: IsJsWhitespace(s[i]))
  {
    var t := TrimStart(s);
    var r := TrimEnd(t);
    var a := |s| - |t|;
    assert r == s[a..a + |r|];
    r
  }

  /** `!s.trim()`: the trimmed string is the falsy empty string. */
  predicate IsBlank(s: string) {
    Trim(s) == ""
  }

  /** A string is blank exactly when every character of it is whitespace. */
  lemma {:induction false} BlankIffAllWhitespace(s: string)
    ensures IsBlank(s) <==> forall i | 0 <= i < |s| :: IsJsWhitespace(s[i])
  {
  }

  /** `options.filter((opt) => opt.trim())`: the non-blank options in
      their original order, untrimmed. */
  function ValidOptions(options: seq<string>): (r: seq<string>)
    ensures forall i | 0 <= i < |r| :: !IsBlank(r[i])
    ensures IsSubsequence(r, options)
  {
    if options == [] then []
    else
      var rest := ValidOptions(options[1..]);
      if IsBlank(options[0]) then
        SubsequenceSkip(rest, options);
        rest
      else
        var r := [options[0]] + rest;
        assert r[1..] == rest;
        assert forall i | 1 <= i < |r| :: r[i] == rest[i - 1];
        r
  }

  /** Every non-blank option is kept. */
  lemma {:induction false} ValidOptionsKeepsNonBlank(options: seq<string>)
    ensures forall i | 0 <= i < |options| && !IsBlank(options[i]) :: options[i] in ValidOptions(options)
  {
    if options != [] {
      var rest := ValidOptions(options[1..]);
      var r := ValidOptions(options);
      ValidOptionsKeepsNonBlank(options[1..]);
      assert r == if IsBlank(options[0]) then rest else [options[0]] + rest;
      forall i | 0 <= i < |options| && !IsBlank(options[i]) ensures options[i] in r {
        if i == 0 {
          assert r[0] == options[0];
        } else {
          assert options[i] == options[1..][i - 1];
          assert options[i] in rest;
        }
      }
    }
  }

  /** The filter distributes over concatenation. */
  lemma {:induction false} ValidOptionsAppend(a: seq<string>, b: seq<string>)
    ensures ValidOptions(a + b) == ValidOptions(a) + ValidOptions(b)
  {
    if a == [] {
      assert a + b == b;
    } else {
      assert (a + b)[1..] == a[1..] + b;
      ValidOptionsAppend(a[1..], b);
    }
  }

  /** The guard of `handleCreatePoll`: no event when the question is blank
      or fewer than two options are non-blank; otherwise a `create-poll`
      carrying the question as typed and the non-blank options. */
  function CreatePollRequest(question: string, options: seq<string>): (r: Option<ClientEvent>)
    ensures r.None? <==> IsBlank(question) || |ValidOptions(options)| < 2
    ensures r.Some? ==>
      && r.value == CreatePoll(question, ValidOptions(options))
      && r.value.question == question
      && |r.value.options| >= 2
      && (forall i | 0 <= i < |r.value.options| :: !IsBlank(r.value.options[i]))
      && IsSubsequence(r.value.options, options)
      && (forall i | 0 <= i < |options| && !IsBlank(options[i]) :: options[i] in r.value.options)
  {
    ValidOptionsKeepsNonBlank(options);
    var valid := ValidOptions(options);
    if IsBlank(question) || |valid| < 2 then None
    else Some(CreatePoll(question, valid))
  }

  /** `options.filter((_, i) => i !== index)`: the entry at `index` is
      dropped, the entries before it stay where they are and the ones after
      it move down by one; an index outside the list drops nothing. */
  function RemoveAt(options: seq<string>, index: int): (r: seq<string>)
    ensures 0 <= index < |options| ==> |r| == |options| - 1
    ensures 0 <= index < |options| ==>
      && (forall i | 0 <= i < index :: r[i] == options[i])
      && (forall i | index <= i < |r| :: r[i] == options[i + 1])
    ensures !(0 <= index < |options|) ==> r == options
  {
    if 0 <= index < |options| then options[..index] + options[index + 1..] else options
  }

  /** The form's state, which each handler replaces. */
  class PollForm {
    var question: string
    var options: seq<string>

    /** At least two option fields are shown. */
    predicate Valid()
      reads this
    {
      |options| >= 2
    }

    /** `useState('')` and `useState(['', ''])`. */
    constructor ()
      ensures question == "" && options == ["", ""]
      ensures Valid()
    {
      question := "";
      options := ["", ""];
    }

    /** The question input's `onChange`. */
    method SetQuestion(value: string)
      requires Valid()
      modifies this
      ensures question == value && options == old(options)
      ensures Valid()
    {
      question := value;
    }

    /** `handleAddOption`: one empty option at the end. */
    method AddOption()
      requires Valid()
      modifies this
      ensures options == old(options) + [""] && question == old(question)
      ensures Valid()
    {
      options := options + [""];
    }

    /** `handleRemoveOption(index)`: only when more than two options are
        shown. */
    method RemoveOption(index: int)
      requires Valid()
      modifies this
      ensures options == if |old(options)| > 2 then RemoveAt(old(options), index) else old(options)
      ensures question == old(question)
      ensures Valid()
    {
      if |options| > 2 {
        options := RemoveAt(options, index);
      }
    }

    /** `handleOptionChange(index, value)`: a copy of the list with one
        element overwritten. */
    method OptionChange(index: nat, value: string)
      requires Valid() && index < |options|
      modifies this
      ensures |options| == |old(options)|
      ensures options[index] == value
      ensures forall i | 0 <= i < |options| && i != index :: options[i] == old(options)[i]
      ensures question == old(question)
      ensures Valid()
    {
      var current := options;
      var copy := new string[|current|](i requires 0 <= i < |current| => current[i]);
      copy[index] := value;
      options := copy[..];
    }

    /** `handleCreatePoll`: the event it emits, if any; after an emit the
        form is reset, after a rejection it is left as it was. */
    method CreatePoll() returns (emitted: Option<ClientEvent>)
      requires Valid()
      modifies this
      ensures emitted == CreatePollRequest(old(question), old(options))
      ensures emitted.Some? ==> question == "" && options == ["", ""]
      ensures emitted.None? ==> question == old(question) && options == old(options)
      ensures Valid()
    {
      emitted := CreatePollRequest(question, options);
      if emitted.Some? {
        question := "";
        options := ["", ""];
      }
    }
  }
}
