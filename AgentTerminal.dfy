/**
 * The agent log's display logic (src/components/AgentTerminal.tsx): each
 * `agent-browser` command is shown as a `firecrawl browser` command, and
 * every space-separated token of it is coloured by what it is.
 */
module AgentTerminal {
  import opened JsStrings

  const AgentPrefix := "agent-browser"
  const FirecrawlPrefix := "firecrawl browser "

  /**
   * `toFirecrawlCommand`: a leading `agent-browser` and the whitespace after
   * it become `firecrawl browser `; the rest of the command is kept as it is.
   */
  function ToFirecrawlCommand(command: string): (r: string)
    ensures !StartsWith(command, AgentPrefix) ==> r == command
    ensures StartsWith(command, AgentPrefix) ==>
      && StartsWith(r, FirecrawlPrefix)
      && var rest := r[|FirecrawlPrefix|..];
      && |AgentPrefix| <= |command| - |rest|
      && rest == command[|command| - |rest|..]
      && (forall i :: |AgentPrefix| <= i < |command| - |rest| ==> IsSpace(command[i]))
      && (rest == [] || !IsSpace(rest[0]))
  {
    if StartsWith(command, AgentPrefix) then
      var rest := TrimStart(command[|AgentPrefix|..]);
      var r := FirecrawlPrefix + rest;
      assert r[|FirecrawlPrefix|..] == rest;
      r
    else command
  }

  /** The rewrite applies once: a rewritten command is shown as it is. */
  lemma RewriteIdempotent(command: string)
    ensures ToFirecrawlCommand(ToFirecrawlCommand(command)) == ToFirecrawlCommand(command)
  {
    hide ToFirecrawlCommand;
    var r := ToFirecrawlCommand(command);
    if StartsWith(command, AgentPrefix) {
      assert r[..|FirecrawlPrefix|] == FirecrawlPrefix;
      NotAgentCommand(r);
    }
  }

  /** A command that starts with anything but `a` is not an agent command. */
  lemma NotAgentCommand(s: string)
    requires |s| > 0 && s[0] != 'a'
    ensures !StartsWith(s, AgentPrefix)
  {
  }

  /** No whitespace is needed after the prefix: `agent-browserX` shows as `firecrawl browser X`. */
  lemma RewriteWithoutSpace()
    ensures ToFirecrawlCommand("agent-browserX") == "firecrawl browser X"
  {
    assert !IsSpace('X');
    hide IsSpace, ToFirecrawlCommand, TrimStart;
    var c := "agent-browserX";
    assert c[..|AgentPrefix|] == AgentPrefix;
    var r := ToFirecrawlCommand(c);
    var rest := r[|FirecrawlPrefix|..];
    assert c[|AgentPrefix|] == 'X';
    assert |rest| == 1;
    assert rest == "X";
    assert r == FirecrawlPrefix + rest;
  }

  /** The colour classes of the terminal's tokens. */
  datatype TokenClass = Ref | Brand | Product | Verb | Flag | Plain

  /** The commands the terminal highlights as verbs. */
  const Verbs: seq<string> := ["click", "snapshot", "scroll", "get", "open"]

  /** The class of one token, by the first test it passes in this order: `@` reference, `firecrawl`, `browser`, verb, `-i`. */
  function Classify(part: string): (k: TokenClass)
    ensures k == Ref <==> StartsWith(part, "@")
    ensures k == Brand <==> !StartsWith(part, "@") && part == "firecrawl"
    ensures k == Product <==> !StartsWith(part, "@") && part == "browser"
    ensures k == Verb <==> !StartsWith(part, "@") && part in Verbs
    ensures k == Flag <==> part == "-i"
    ensures k == Plain <==>
      !StartsWith(part, "@") && part !in Verbs && part !in ["firecrawl", "browser", "-i"]
  {
    assert StartsWith(part, "@") ==> part[0] == '@';
    if StartsWith(part, "@") then Ref
    else if part == "firecrawl" then Brand
    else if part == "browser" then Product
    else if part in Verbs then Verb
    else if part == "-i" then Flag
    else Plain
  }

  /** `formatCommand`: the shown command split on spaces, each token with its class. */
  function FormatCommand(command: string): (r: seq<(string, TokenClass)>)
    ensures var parts := Split(ToFirecrawlCommand(command), ' ');
      && |r| == |parts|
      && forall i :: 0 <= i < |r| ==> r[i] == (parts[i], Classify(parts[i]))
  {
    var parts := Split(ToFirecrawlCommand(command), ' ');
    seq(|parts|, i requires 0 <= i < |parts| => (parts[i], Classify(parts[i])))
  }

  /** The tokens, joined by spaces, spell the shown command: nothing is dropped or reordered. */
  function Texts(tokens: seq<(string, TokenClass)>): (r: seq<string>)
    ensures |r| == |tokens| && forall i :: 0 <= i < |tokens| ==> r[i] == tokens[i].0
  {
    seq(|tokens|, i requires 0 <= i < |tokens| => tokens[i].0)
  }

  lemma FormatKeepsText(command: string)
    ensures |FormatCommand(command)| >= 1
    ensures Join(Texts(FormatCommand(command)), ' ') == ToFirecrawlCommand(command)
  {
    var parts := Split(ToFirecrawlCommand(command), ' ');
    assert Texts(FormatCommand(command)) == parts;
    JoinSplit(ToFirecrawlCommand(command), ' ');
  }

  /** A rewritten agent command shows `firecrawl` and `browser` as its first two tokens. */
  lemma RewrittenHead(command: string)
    requires StartsWith(command, AgentPrefix)
    ensures |FormatCommand(command)| >= 3
    ensures FormatCommand(command)[0] == ("firecrawl", Brand)
    ensures FormatCommand(command)[1] == ("browser", Product)
  {
    hide ToFirecrawlCommand, Split, FormatCommand;
    var shown := ToFirecrawlCommand(command);
    var rest := shown[|FirecrawlPrefix|..];
    assert shown[..|FirecrawlPrefix|] == FirecrawlPrefix;
    assert shown == "firecrawl" + [' '] + ("browser" + [' '] + rest);
    SplitAtSep("firecrawl", ' ', "browser" + [' '] + rest);
    SplitAtSep("browser", ' ', rest);
    var parts := Split(shown, ' ');
    assert parts[0] == "firecrawl" && parts[1] == "browser";
  }
}
