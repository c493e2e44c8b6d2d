/**
 * The prompt sent to the completion provider (index.js:75 and index.js:114).
 * The prompt is a comment header holding the query; every rejected
 * suggestion is appended to it, followed by a comment that asks for the
 * same command formatted differently.
 */
module PromptBuilder {

  /** The framing label in front of the query. */
  const Header: string := "# Bash\n# "

  /** What follows every rejected suggestion in the prompt. */
  const Delimiter: string := "\n\n# Same command, but differently formatted\n"

  /** The seed prompt of a session. */
  function Initial(query: string): (p: string)
    ensures |p| == |Header| + |query| + 1
    ensures p[..|Header|] == Header
    ensures p[|Header|..|Header| + |query|] == query
    ensures p[|p| - 1] == '\n'
  {
    Header + query + "\n"
  }

  /** The prompt after one more rejection of `suggestion`. */
  function Extend(prompt: string, suggestion: string): string
  {
    prompt + suggestion + Delimiter
  }

  /**
   * A rejection keeps the old prompt as it is and appends exactly the
   * rejected suggestion and the delimiter comment after it.
   */
  lemma ExtendMeaning(prompt: string, suggestion: string)
    ensures var p := Extend(prompt, suggestion);
            && prompt <= p
            && p[|prompt|..] == suggestion + Delimiter
  {
  }

  /** The text that the given rejected suggestions, in order, add to a prompt. */
  function Blocks(rejected: seq<string>): string
  {
    if rejected == [] then "" else rejected[0] + Delimiter + Blocks(rejected[1..])
  }

  /** Extending a prompt once per rejected suggestion, in order. */
  function ExtendAll(prompt: string, rejected: seq<string>): string
    decreases |rejected|
  {
    if rejected == [] then prompt else ExtendAll(Extend(prompt, rejected[0]), rejected[1..])
  }

  /** The query can be read back from the seed prompt: no other query gives the same prompt. */
  lemma InitialDeterminesQuery(q1: string, q2: string)
    ensures Initial(q1) == Initial(q2) <==> q1 == q2
  {
    if Initial(q1) == Initial(q2) {
      assert q1 == Initial(q1)[|Header|..|Header| + |q1|];
    }
  }

  /**
   * N rejections leave the prompt it started from, then exactly N blocks, in
   * the order the suggestions were rejected.
   */
  lemma {:induction false} ExtendAllAppendsBlocks(prompt: string, rejected: seq<string>)
    ensures ExtendAll(prompt, rejected) == prompt + Blocks(rejected)
    decreases |rejected|
  {
    if rejected != [] {
      ExtendAllAppendsBlocks(Extend(prompt, rejected[0]), rejected[1..]);
    }
  }

  /** Extending, then adding blocks, is adding one block more. */
  lemma ExtendThenBlocks(prompt: string, s: string, later: seq<string>)
    ensures Extend(prompt, s) + Blocks(later) == prompt + Blocks([s] + later)
  {
    assert ([s] + later)[1..] == later;
    assert Blocks([s] + later) == s + Delimiter + Blocks(later);
  }

  /** More rejections only ever add to the end of the blocks. */
  lemma {:induction false} BlocksMonotone(rs: seq<string>, ts: seq<string>)
    requires rs <= ts
    ensures Blocks(rs) <= Blocks(ts)
    decreases |rs|
  {
    if rs != [] {
      assert rs[0] == ts[0];
      BlocksMonotone(rs[1..], ts[1..]);
    }
  }
}
