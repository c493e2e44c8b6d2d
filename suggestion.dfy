/**
 * Turning a completion response into a command (index.js:54-63): take the
 * first choice, trim it, strip at most one leading '!', and refuse an
 * absent, empty or blank answer with "No suggestion found".
 */
module Suggestion {
  import opened Wrappers

  /** Why a request yields no suggestion. */
  datatype Error =
    | NoSuggestionFound             // index.js:55 and index.js:60
    | RequestError(message: string) // the HTTP request itself was rejected

  /**
   * What one completion request gives back. `Response(None)` is a falsy
   * response or one without a `choices` field; the strings are the `text`
   * fields of the choices, in order.
   */
  datatype Reply =
    | RequestFailed(message: string)
    | Response(choices: Option<seq<string>>)

  /** The characters trimmed: ASCII white space, line terminators, NBSP and BOM. */
  predicate IsSpace(c: char)
  {
    c == ' ' || c == '\t' || c == '\n' || c == '\r' || c == '\U{B}' || c == '\U{C}'
    || c == '\U{A0}' || c == '\U{FEFF}' || c == '\U{2028}' || c == '\U{2029}'
  }

  /** How many white-space characters open `s`. */
  function LeadingSpaces(s: string): (n: nat)
    ensures n <= |s|
  {
    if s != [] && IsSpace(s[0]) then 1 + LeadingSpaces(s[1..]) else 0
  }

  /** The characters counted by LeadingSpaces are white space, and the one after them is not. */
  lemma {:induction false} LeadingSpacesMeaning(s: string)
    ensures var n := LeadingSpaces(s);
            && (forall i | 0 <= i < n :: IsSpace(s[i]))
            && (n == |s| || !IsSpace(s[n]))
    decreases |s|
  {
    if s != [] && IsSpace(s[0]) {
      LeadingSpacesMeaning(s[1..]);
    }
  }

  /** How many white-space characters close `s`. */
  function TrailingSpaces(s: string): (n: nat)
    ensures n <= |s|
  {
    if s != [] && IsSpace(s[|s| - 1]) then 1 + TrailingSpaces(s[..|s| - 1]) else 0
  }

  /** The characters counted by TrailingSpaces are white space, and the one before them is not. */
  lemma {:induction false} TrailingSpacesMeaning(s: string)
    ensures var n := TrailingSpaces(s);
            && (forall i | |s| - n <= i < |s| :: IsSpace(s[i]))
            && (n == |s| || !IsSpace(s[|s| - n - 1]))
    decreases |s|
  {
    if s != [] && IsSpace(s[|s| - 1]) {
      TrailingSpacesMeaning(s[..|s| - 1]);
    }
  }

  /** `s` without white space at either end, as `String.prototype.trim` gives it. */
  function Trim(s: string): string
  {
    var rest := s[LeadingSpaces(s)..];
    rest[..|rest| - TrailingSpaces(rest)]
  }

  /**
   * What Trim keeps: the part of `s` that starts at the first non-space
   * character, whose ends are not spaces and outside of which there is only
   * white space.
   */
  lemma TrimMeaning(s: string)
    ensures var r := Trim(s);
            var lead := LeadingSpaces(s);
            && lead + |r| <= |s|
            && r == s[lead..lead + |r|]
            && (r == [] || (!IsSpace(r[0]) && !IsSpace(r[|r| - 1])))
            && (forall i | 0 <= i < lead :: IsSpace(s[i]))
            && (forall i | lead + |r| <= i < |s| :: IsSpace(s[i]))
  {
    LeadingSpacesMeaning(s);
    TrailingSpacesMeaning(s[LeadingSpaces(s)..]);
  }

  /** The `replace(/^!/, '')` step. */
  function StripBang(s: string): string
  {
    if |s| > 0 && s[0] == '!' then s[1..] else s
  }

  /**
   * What StripBang leaves: `s` less at most one character at its front, and
   * that character goes exactly when it is a '!'.
   */
  lemma StripBangMeaning(s: string)
    ensures var r := StripBang(s);
            && |s| - 1 <= |r| <= |s| && r == s[|s| - |r|..]
            && (|r| < |s| <==> |s| > 0 && s[0] == '!')
  {
  }

  /** The command a reply suggests (index.js:54-63), or why there is none. */
  function Normalise(reply: Reply): Result<string, Error>
  {
    match reply
    case RequestFailed(message) => Err(RequestError(message))
    case Response(choices) =>
      if choices.None? || choices.value == [] then Err(NoSuggestionFound)
      else
        var command := StripBang(Trim(choices.value[0]));
        if command == "" then Err(NoSuggestionFound) else Ok(command)
  }

  /**
   * What Normalise gives. A failed request gives its error, and a response
   * without a first choice gives NoSuggestionFound. Otherwise the response is
   * refused exactly when its first choice, trimmed, is blank or a lone '!',
   * and the command is that trimmed choice less one leading '!' if it had
   * one. A command is never empty.
   */
  lemma NormaliseMeaning(reply: Reply)
    ensures var r := Normalise(reply);
            && (reply.RequestFailed? ==> r == Err(RequestError(reply.message)))
            && (reply.Response? && (reply.choices.None? || reply.choices.value == []) ==> r == Err(NoSuggestionFound))
            && (reply.Response? && reply.choices.Some? && reply.choices.value != [] ==>
                  var t := Trim(reply.choices.value[0]);
                  && (r.Ok? <==> t != "" && t != "!")
                  && (r.Err? ==> r == Err(NoSuggestionFound))
                  && (r.Ok? ==> if t[0] == '!' then t == "!" + r.value else t == r.value))
            && (r.Ok? ==> r.value != "")
  {
  }

  /** Trimming twice is trimming once. */
  lemma TrimIdempotent(s: string)
    ensures Trim(Trim(s)) == Trim(s)
  {
    var t := Trim(s);
    TrimMeaning(s);
    assert LeadingSpaces(t) == 0;
    if t != [] {
      assert TrailingSpaces(t) == 0;
    }
  }

  /** A completion with no white space at its ends and no leading '!'. */
  predicate Clean(s: string)
  {
    s != "" && !IsSpace(s[0]) && !IsSpace(s[|s| - 1]) && s[0] != '!'
  }

  /** A clean first choice is the suggestion as it stands. */
  lemma CleanChoiceTakenVerbatim(s: string, rest: seq<string>)
    requires Clean(s)
    ensures Normalise(Response(Some([s] + rest))) == Ok(s)
  {
    assert LeadingSpaces(s) == 0;
    assert s[0..] == s;
    assert TrailingSpaces(s) == 0;
    assert Trim(s) == s;
  }

  /** Only the first choice matters; the others are never read. */
  lemma FirstChoiceOnly(first: string, rest1: seq<string>, rest2: seq<string>)
    ensures Normalise(Response(Some([first] + rest1))) == Normalise(Response(Some([first] + rest2)))
  {
  }

  /** Only one '!' is stripped: "!!ls" suggests "!ls". */
  lemma DoubleBangKeepsOne()
    ensures Normalise(Response(Some(["!!ls"]))) == Ok("!ls")
  {
    assert LeadingSpaces("!!ls") == 0;
    assert TrailingSpaces("!!ls") == 0;
    assert Trim("!!ls") == "!!ls";
  }

  /** Trimming comes before stripping, so the space after a '!' stays: " ! ls" suggests " ls". */
  lemma SpaceAfterBangKept()
    ensures Normalise(Response(Some([" ! ls"]))) == Ok(" ls")
  {
    assert LeadingSpaces(" ! ls") == 1 by {
      assert " ! ls"[1..] == "! ls";
      assert LeadingSpaces("! ls") == 0;
    }
    assert TrailingSpaces("! ls") == 0;
    assert Trim(" ! ls") == "! ls";
    assert "! ls"[1..] == " ls";
  }

  /** A lone '!' among spaces leaves nothing: no suggestion. */
  lemma LoneBangRefused()
    ensures Normalise(Response(Some([" ! "]))) == Err(NoSuggestionFound)
  {
    assert LeadingSpaces(" ! ") == 1 by {
      assert " ! "[1..] == "! ";
      assert LeadingSpaces("! ") == 0;
    }
    assert TrailingSpaces("! ") == 1 by {
      assert "! "[..1] == "!";
      assert TrailingSpaces("!") == 0;
    }
    assert Trim(" ! ") == "!";
  }

  /** A blank first choice is no suggestion. */
  lemma BlankRefused(s: string, rest: seq<string>)
    requires Trim(s) == ""
    ensures Normalise(Response(Some([s] + rest))) == Err(NoSuggestionFound)
  {
    assert ([s] + rest)[0] == s;
  }
}
