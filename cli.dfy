/**
 * The command line of index.js: the query is the arguments joined by
 * spaces (line 14), the API key comes from OPENAI_TOKEN or the key file
 * (lines 16-26), and the top level (lines 124-132) shows usage, runs setup,
 * or runs a session after setting up when there is no key.
 */
module Cli {
  import opened Wrappers

  /** The total length of the arguments. */
  function Chars(args: seq<string>): nat
  {
    if args == [] then 0 else |args[0]| + Chars(args[1..])
  }

  /** `args.join(' ')`: the arguments in order, one space between each two. */
  function Join(args: seq<string>): (query: string)
    ensures args == [] ==> query == ""
    ensures args != [] ==> |query| == Chars(args) + |args| - 1
    ensures args != [] ==> args[0] <= query
    ensures |args| > 1 ==> query[|args[0]|] == ' '
  {
    if args == [] then ""
    else if |args| == 1 then args[0]
    else args[0] + " " + Join(args[1..])
  }

  /**
   * Where the i-th argument sits in the query: after the arguments before it
   * and one space per argument before it, unchanged, and followed by a space
   * when more arguments come.
   */
  lemma {:induction false} JoinAt(args: seq<string>, i: nat)
    requires i < |args|
    ensures var at := Chars(args[..i]) + i;
            && at + |args[i]| <= |Join(args)|
            && Join(args)[at..at + |args[i]|] == args[i]
            && (i + 1 < |args| ==> at + |args[i]| < |Join(args)| && Join(args)[at + |args[i]|] == ' ')
    decreases i
  {
    if i == 0 {
      assert args[..0] == [];
    } else {
      JoinAt(args[1..], i - 1);
      assert args[1..][..i - 1] == args[..i][1..];
      assert Chars(args[..i]) == |args[0]| + Chars(args[1..][..i - 1]);
    }
  }

  /** The query is empty exactly when there are no arguments or a single empty one. */
  lemma JoinEmpty(args: seq<string>)
    ensures Join(args) == "" <==> args == [] || args == [""]
  {
  }

  /** A query without a space comes from a single argument. */
  lemma JoinWithoutSpace(args: seq<string>)
    ensures ' ' !in Join(args) ==> args == [] || args == [Join(args)]
  {
    if |args| > 1 {
      assert Join(args)[|args[0]|] == ' ';
    }
  }

  /**
   * What the process sees: the OPENAI_TOKEN variable, if set, and the
   * contents of the key file ~/.x, if it exists.
   */
  datatype Env = Env(token: Option<string>, keyFile: Option<string>)

  /** JavaScript truthiness of a string that may be undefined. */
  predicate Truthy(v: Option<string>)
  {
    v.Some? && v.value != ""
  }

  /**
   * getApiKey: a non-empty OPENAI_TOKEN wins; otherwise the key file's
   * contents, even empty ones; otherwise undefined.
   */
  function ApiKey(env: Env): (key: Option<string>)
    ensures Truthy(env.token) ==> key == env.token
    ensures !Truthy(env.token) ==> key == env.keyFile
    ensures key.None? <==> !Truthy(env.token) && env.keyFile.None?
  {
    if Truthy(env.token) then env.token
    else if env.keyFile.Some? then env.keyFile
    else None
  }

  /** A non-empty token makes the key file irrelevant. */
  lemma TokenTakesPrecedence(token: string, file1: Option<string>, file2: Option<string>)
    requires token != ""
    ensures ApiKey(Env(Some(token), file1)) == ApiKey(Env(Some(token), file2)) == Some(token)
  {
  }

  /** What the top level does. */
  datatype Action =
    | ShowUsage
    | Setup
    | RunSession(query: string, setupFirst: bool)

  /**
   * Lines 124-132: no query shows usage; the query "init" runs setup and
   * nothing else; any other query runs a session, fetching a key first when
   * getApiKey gives nothing truthy.
   */
  function Dispatch(args: seq<string>, env: Env): (action: Action)
    ensures action == ShowUsage <==> args == [] || args == [""]
    ensures action == Setup <==> args == ["init"]
    ensures action.RunSession? ==> action.query == Join(args) && action.query != "" && action.query != "init"
    ensures action.RunSession? ==> (action.setupFirst <==> !Truthy(ApiKey(env)))
  {
    JoinEmpty(args);
    JoinWithoutSpace(args);
    var query := Join(args);
    if query == "" then ShowUsage
    else if query == "init" then Setup
    else RunSession(query, !Truthy(ApiKey(env)))
  }

  /** Setup runs before a session exactly when there is no truthy token and no non-empty key file. */
  lemma SetupBeforeSession(args: seq<string>, env: Env)
    requires Dispatch(args, env).RunSession?
    ensures Dispatch(args, env).setupFirst <==> !Truthy(env.token) && !Truthy(env.keyFile)
  {
  }

  /** "init" followed by other words is an ordinary query, not setup. */
  lemma InitWithOtherWords(args: seq<string>, env: Env)
    requires |args| > 1 && args[0] == "init"
    ensures Dispatch(args, env) == RunSession(Join(args), !Truthy(ApiKey(env)))
  {
  }
}
