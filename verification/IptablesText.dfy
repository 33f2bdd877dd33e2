/** The iptables engine's scripts as text: how the commands are spelled, and a reader that gets them back. */
module IptablesText {
  import opened Text
  import opened Policy
  import opened Fetcher
  import opened Targets
  import opened Lexing
  import opened Iptables
  import Nftables
  import HAProxy

  /** What separates words and, between lines, commands. */
  predicate IsBlank(c: char) {
    c == ' ' || c == '\t' || c == '\n'
  }

  predicate IsComma(c: char) {
    c == ','
  }

  // ---------- the text ----------

  function Bin(f: Family): (r: string) {
    if f.V4? then "iptables" else "ip6tables"
  }

  function SetFamily(f: Family): (r: string) {
    if f.V4? then "inet" else "inet6"
  }

  const TOLERANT := ["2>/dev/null", "||", "true"]

  function CreateWords(name: string, f: Family): (r: Statement) {
    ["ipset", "create", name, "hash:net", "family", SetFamily(f), "-exist"]
  }

  function SourceWords(src: Source): (r: Statement) {
    match src
    case Outside(s) => ["-m", "set", "!", "--match-set", s, "src"]
    case Inside(s) => ["-m", "set", "--match-set", s, "src"]
    case Any => []
  }

  function RuleWords(r: Rule): (ws: Statement) {
    ["-p", "tcp", "-m", "multiport", "--dports", Concat(Nftables.Itoas(r.ports), ","),
     "-m", "conntrack", "--ctstate", "NEW"] + (SourceWords(r.src) + ["-j", "DROP"])
  }

  /** A line of the script, word by word. */
  function CmdWords(n: Names, cmd: Cmd): (r: Statement) {
    match cmd
    case CreateBase(f) => CreateWords(n.Base(f), f)
    case CreateSwap(f) => CreateWords(n.Swap(f), f)
    case FlushSwap(f) => ["ipset", "flush", n.Swap(f)]
    case AddNet(f, entry) => ["ipset", "add", n.Swap(f), entry]
    case SwapSets(f) => ["ipset", "swap", n.Swap(f), n.Base(f)]
    case DestroySwap(f) => ["ipset", "destroy", n.Swap(f)]
    case NewChain(f) => [Bin(f), "-N", n.chain] + TOLERANT
    case FlushChain(f) => [Bin(f), "-F", n.chain]
    case Append(f, rule) => [Bin(f), "-A", n.chain] + RuleWords(rule)
    case EnsureJump(f) =>
      [Bin(f), "-C", "INPUT", "-j", n.chain, "2>/dev/null", "||", Bin(f), "-I", "INPUT", "-j", n.chain]
    case DeleteJump(f) => [Bin(f), "-D", "INPUT", "-j", n.chain] + TOLERANT
    case TryFlushChain(f) => [Bin(f), "-F", n.chain] + TOLERANT
    case TryDeleteChain(f) => [Bin(f), "-X", n.chain] + TOLERANT
    case TryDestroyBase(f) => ["ipset", "destroy", n.Base(f)] + TOLERANT
  }

  function CmdLines(n: Names, cmds: seq<Cmd>): (r: seq<string>) {
    if cmds == [] then [] else [Concat(CmdWords(n, cmds[0]), " ")] + CmdLines(n, cmds[1..])
  }

  function HeadText(t: Target, c: CIDRs): (r: string) {
    "#!/bin/sh\n" + "set -e\n"
    + ("# ip-watch managed - provider: " + c.provider + "  mode: " + t.mode + "\n")
  }

  /** renderIPTables: it ends at the first command that fails. */
  function ScriptText(t: Target, c: CIDRs): (r: string) {
    HeadText(t, c) + Lines(CmdLines(NamesOf(t.id), Script(t, c)))
  }

  /** The script of a removal. */
  function RemovalText(id: string): (r: string) {
    "#!/bin/sh\n" + Lines(CmdLines(NamesOf(id), RemoveScript()))
  }

  // ---------- the reader ----------

  /** Which family a program works on. */
  function FamilyOf(bin: string): (r: Option<Family>) {
    if bin == "iptables" then Some(V4) else if bin == "ip6tables" then Some(V6) else None
  }

  /** Which family's set this is. */
  function BaseOf(n: Names, name: string): (r: Option<Family>) {
    if name == n.base4 then Some(V4) else if name == n.base6 then Some(V6) else None
  }

  function SwapOf(n: Names, name: string): (r: Option<Family>) {
    if name == n.swap4 then Some(V4) else if name == n.swap6 then Some(V6) else None
  }

  function ReadSource(ws: Statement): (r: Option<Source>) {
    if ws == [] then Some(Any)
    else if |ws| == 5 && ws[..3] == ["-m", "set", "--match-set"] && ws[4] == "src" then Some(Inside(ws[3]))
    else if |ws| == 6 && ws[..4] == ["-m", "set", "!", "--match-set"] && ws[5] == "src" then Some(Outside(ws[4]))
    else None
  }

  /** TCP to some ports, new connections, from some sources: dropped. */
  function ReadRule(ws: Statement): (r: Option<Rule>) {
    if |ws| >= 12 && ws[..5] == ["-p", "tcp", "-m", "multiport", "--dports"]
       && ws[6..10] == ["-m", "conntrack", "--ctstate", "NEW"] && ws[|ws| - 2..] == ["-j", "DROP"]
    then
      var src := ReadSource(ws[10..|ws| - 2]);
      if src.None? then None else Some(Rule(Nftables.Atois(FieldsBy(ws[5], IsComma)), src.value))
    else None
  }

  /** A command whose failure is ignored. */
  function ReadTolerant(n: Names, ws: Statement): (r: Option<Cmd>) {
    if |ws| == 3 && ws[..2] == ["ipset", "destroy"] && BaseOf(n, ws[2]).Some?
    then Some(TryDestroyBase(BaseOf(n, ws[2]).value))
    else if |ws| < 3 || FamilyOf(ws[0]).None? then None
    else
      var f := FamilyOf(ws[0]).value;
      if ws[1..] == ["-N", n.chain] then Some(NewChain(f))
      else if ws[1..] == ["-F", n.chain] then Some(TryFlushChain(f))
      else if ws[1..] == ["-X", n.chain] then Some(TryDeleteChain(f))
      else if ws[1..] == ["-D", "INPUT", "-j", n.chain] then Some(DeleteJump(f))
      else None
  }

  function ReadCreate(n: Names, name: string, family: string): (r: Option<Cmd>) {
    var base, swap := BaseOf(n, name), SwapOf(n, name);
    if base.Some? && family == (if base.value.V4? then "inet" else "inet6") then Some(CreateBase(base.value))
    else if swap.Some? && family == (if swap.value.V4? then "inet" else "inet6") then Some(CreateSwap(swap.value))
    else None
  }

  function ReadSetCmd(n: Names, ws: Statement): (r: Option<Cmd>) {
    if |ws| == 7 && ws[1] == "create" && ws[3..5] == ["hash:net", "family"] && ws[6] == "-exist"
    then ReadCreate(n, ws[2], ws[5])
    else if |ws| < 3 || SwapOf(n, ws[2]).None? then None
    else
      var f := SwapOf(n, ws[2]).value;
      if |ws| == 3 && ws[1] == "flush" then Some(FlushSwap(f))
      else if |ws| == 3 && ws[1] == "destroy" then Some(DestroySwap(f))
      else if |ws| == 4 && ws[1] == "add" then Some(AddNet(f, ws[3]))
      else if |ws| == 4 && ws[1] == "swap" && ws[3] == n.Base(f) then Some(SwapSets(f))
      else None
  }

  function ReadChainCmd(n: Names, ws: Statement): (r: Option<Cmd>) {
    if |ws| < 3 || FamilyOf(ws[0]).None? then None
    else
      var f := FamilyOf(ws[0]).value;
      if ws[1..] == ["-F", n.chain] then Some(FlushChain(f))
      else if ws[1] == "-A" && ws[2] == n.chain && ReadRule(ws[3..]).Some? then Some(Append(f, ReadRule(ws[3..]).value))
      else if ws[1..] == ["-C", "INPUT", "-j", n.chain, "2>/dev/null", "||", ws[0], "-I", "INPUT", "-j", n.chain]
           then Some(EnsureJump(f))
      else None
  }

  function ReadCmd(n: Names, ws: Statement): (r: Option<Cmd>) {
    if |ws| > 3 && ws[|ws| - 3..] == ["2>/dev/null", "||", "true"] then ReadTolerant(n, ws[..|ws| - 3])
    else if ws != [] && ws[0] == "ipset" then ReadSetCmd(n, ws)
    else ReadChainCmd(n, ws)
  }

  function ReadCmds(n: Names, sts: seq<Statement>): (r: Option<seq<Cmd>>) {
    if sts == [] then Some([])
    else
      var first, more := ReadCmd(n, sts[0]), ReadCmds(n, sts[1..]);
      if first.None? || more.None? then None else Some([first.value] + more.value)
  }

  /** A command that cannot make the script fail. */
  predicate NeverFails(cmd: Cmd) {
    cmd.NewChain? || cmd.DeleteJump? || cmd.TryFlushChain? || cmd.TryDeleteChain? || cmd.TryDestroyBase?
  }

  /** A script of the commands for these names. Without `set -e` it would go on after a failure, so then only
      commands that cannot fail are read. */
  function ReadScript(n: Names, text: string): (r: Option<seq<Cmd>>) {
    var sts := StatementsOf(text, IsBlank);
    if sts != [] && sts[0] == ["set", "-e"] then ReadCmds(n, sts[1..])
    else
      var cmds := ReadCmds(n, sts);
      if cmds.Some? && forall i :: 0 <= i < |cmds.value| ==> NeverFails(cmds.value[i]) then cmds else None
  }

  // ---------- reading the words ----------

  lemma SourceRead(src: Source)
    ensures ReadSource(SourceWords(src)) == Some(src)
  {
    var ws := SourceWords(src);
    if src.Inside? {
      assert ws[..3] == ["-m", "set", "--match-set"];
    } else if src.Outside? {
      assert ws[..4] == ["-m", "set", "!", "--match-set"];
    }
  }

  lemma {:induction false} PortsAreWords(ports: seq<int>)
    ensures Lexing.AllWords(Nftables.Itoas(ports), IsComma) && Lexing.AllWords(Nftables.Itoas(ports), IsBlank)
    ensures AllOneLine(Nftables.Itoas(ports))
  {
    if ports != [] {
      PortsAreWords(ports[..|ports| - 1]);
      NumberIsWord(ports[|ports| - 1]);
    }
  }

  lemma NumberIsWord(n: int)
    ensures IsWord(Itoa(n), IsComma) && IsWord(Itoa(n), IsBlank) && OneLine(Itoa(n))
  {
    DigitsAreDigits(if n < 0 then -n else n);
  }

  lemma RuleRead(r: Rule)
    ensures ReadRule(RuleWords(r)) == Some(r)
  {
    var ws, src := RuleWords(r), SourceWords(r.src);
    var ports := Nftables.Itoas(r.ports);
    PortsAreWords(r.ports);
    FieldsOfConcat(ports, ",", IsComma);
    Nftables.ItoasAtois(r.ports);
    SourceRead(r.src);
    assert ws[..5] == ["-p", "tcp", "-m", "multiport", "--dports"] && ws[5] == Concat(ports, ",");
    assert ws[6..10] == ["-m", "conntrack", "--ctstate", "NEW"];
    assert ws[10..|ws| - 2] == src && ws[|ws| - 2..] == ["-j", "DROP"];
  }

  lemma SetCmdRead(n: Names, cmd: Cmd)
    requires n.Distinct()
    requires cmd.CreateBase? || cmd.CreateSwap? || cmd.FlushSwap? || cmd.AddNet? || cmd.SwapSets? || cmd.DestroySwap?
    ensures ReadSetCmd(n, CmdWords(n, cmd)) == Some(cmd)
  {
    var ws := CmdWords(n, cmd);
    if cmd.CreateBase? || cmd.CreateSwap? {
      assert ws[3..5] == ["hash:net", "family"];
    }
  }

  lemma AppendRead(n: Names, f: Family, rule: Rule)
    ensures ReadChainCmd(n, [Bin(f), "-A", n.chain] + RuleWords(rule)) == Some(Append(f, rule))
  {
    var ws := [Bin(f), "-A", n.chain] + RuleWords(rule);
    RuleRead(rule);
    assert ws[3..] == RuleWords(rule) && ws[1..][0] == "-A";
  }

  lemma JumpRead(n: Names, f: Family)
    ensures ReadChainCmd(n, CmdWords(n, EnsureJump(f))) == Some(EnsureJump(f))
  {
    var ws := CmdWords(n, EnsureJump(f));
    assert ws[1..][0] == "-C";
    assert ws[1..] == ["-C", "INPUT", "-j", n.chain, "2>/dev/null", "||", Bin(f), "-I", "INPUT", "-j", n.chain];
  }

  lemma FlushRead(n: Names, f: Family)
    ensures ReadChainCmd(n, CmdWords(n, FlushChain(f))) == Some(FlushChain(f))
  {
    assert CmdWords(n, FlushChain(f))[1..] == ["-F", n.chain];
  }

  lemma ChainCmdRead(n: Names, cmd: Cmd)
    requires cmd.FlushChain? || cmd.Append? || cmd.EnsureJump?
    ensures ReadChainCmd(n, CmdWords(n, cmd)) == Some(cmd)
  {
    match cmd {
      case FlushChain(f) => FlushRead(n, f);
      case Append(f, rule) => AppendRead(n, f, rule);
      case EnsureJump(f) => JumpRead(n, f);
    }
  }

  function Bare(n: Names, cmd: Cmd): (r: Statement)
    requires NeverFails(cmd)
  {
    match cmd
    case NewChain(f) => [Bin(f), "-N", n.chain]
    case DeleteJump(f) => [Bin(f), "-D", "INPUT", "-j", n.chain]
    case TryFlushChain(f) => [Bin(f), "-F", n.chain]
    case TryDeleteChain(f) => [Bin(f), "-X", n.chain]
    case TryDestroyBase(f) => ["ipset", "destroy", n.Base(f)]
  }

  lemma TolerantRead(n: Names, cmd: Cmd)
    requires n.Distinct() && NeverFails(cmd)
    ensures CmdWords(n, cmd) == Bare(n, cmd) + TOLERANT && ReadTolerant(n, Bare(n, cmd)) == Some(cmd)
  {
    var ws := Bare(n, cmd);
    assert !cmd.TryDestroyBase? ==> ws[..2][0] == Bin(cmd.f);
    match cmd {
      case NewChain(f) => assert ws[1..] == ["-N", n.chain];
      case DeleteJump(f) => assert ws[1..] == ["-D", "INPUT", "-j", n.chain];
      case TryFlushChain(f) => assert ws[1..] == ["-F", n.chain];
      case TryDeleteChain(f) => assert ws[1..] == ["-X", n.chain];
      case TryDestroyBase(f) => assert ws[..2] == ["ipset", "destroy"];
    }
  }

  /** The names that a script uses are none of the shell's words. */
  predicate ProperNames(n: Names) {
    && n.Distinct() && NameOk(n.chain) && NameOk(n.base4) && NameOk(n.base6) && NameOk(n.swap4) && NameOk(n.swap6)
  }

  predicate NameOk(w: string) {
    IsWord(w, IsBlank) && w != "true"
  }

  predicate CmdOk(cmd: Cmd) {
    && (cmd.AddNet? ==> NameOk(cmd.entry))
    && (cmd.Append? && !cmd.rule.src.Any? ==> NameOk(cmd.rule.src.set_))
  }

  /** Other commands do not end in what makes a failure ignored. */
  lemma NotTolerant(n: Names, cmd: Cmd)
    requires ProperNames(n) && CmdOk(cmd) && !NeverFails(cmd)
    ensures var ws := CmdWords(n, cmd); |ws| > 0 && ws[|ws| - 1] != "true"
  {
    if cmd.Append? {
      var ws := CmdWords(n, cmd);
      assert ws[|ws| - 1] == "DROP";
    }
  }

  lemma CmdRead(n: Names, cmd: Cmd)
    requires ProperNames(n) && CmdOk(cmd)
    ensures ReadCmd(n, CmdWords(n, cmd)) == Some(cmd)
  {
    var ws := CmdWords(n, cmd);
    if NeverFails(cmd) {
      TolerantRead(n, cmd);
      assert ws[|ws| - 3..] == TOLERANT && ws[..|ws| - 3] == Bare(n, cmd);
    } else {
      NotTolerant(n, cmd);
      assert |ws| > 3 ==> ws[|ws| - 3..][2] == ws[|ws| - 1];
      assert TOLERANT[2] == "true";
      if cmd.FlushChain? || cmd.Append? || cmd.EnsureJump? {
        ChainCmdRead(n, cmd);
        assert ws[0] == Bin(cmd.f);
      } else {
        SetCmdRead(n, cmd);
        assert ws[0] == "ipset";
      }
    }
  }

  function AllCmdWords(n: Names, cmds: seq<Cmd>): (r: seq<Statement>) {
    if cmds == [] then [] else [CmdWords(n, cmds[0])] + AllCmdWords(n, cmds[1..])
  }

  predicate CmdsOk(cmds: seq<Cmd>) {
    forall i :: 0 <= i < |cmds| ==> CmdOk(cmds[i])
  }

  lemma {:induction false} CmdsRead(n: Names, cmds: seq<Cmd>)
    requires ProperNames(n) && CmdsOk(cmds)
    ensures ReadCmds(n, AllCmdWords(n, cmds)) == Some(cmds)
  {
    if cmds != [] {
      CmdRead(n, cmds[0]);
      CmdsRead(n, cmds[1..]);
      assert ([CmdWords(n, cmds[0])] + AllCmdWords(n, cmds[1..]))[1..] == AllCmdWords(n, cmds[1..]);
      assert cmds == [cmds[0]] + cmds[1..];
    }
  }

  // ---------- the lines ----------

  lemma FixedWords()
    ensures IsWord("ipset", IsBlank) && IsWord("create", IsBlank) && IsWord("hash:net", IsBlank)
    ensures IsWord("family", IsBlank)
    ensures IsWord("inet", IsBlank) && IsWord("inet6", IsBlank) && IsWord("-exist", IsBlank) && IsWord("flush", IsBlank)
    ensures IsWord("add", IsBlank) && IsWord("swap", IsBlank) && IsWord("destroy", IsBlank)
    ensures IsWord("iptables", IsBlank) && IsWord("ip6tables", IsBlank) && IsWord("INPUT", IsBlank)
  {
  }

  lemma OptionWords()
    ensures IsWord("-N", IsBlank) && IsWord("-F", IsBlank) && IsWord("-A", IsBlank) && IsWord("-C", IsBlank)
    ensures IsWord("-I", IsBlank) && IsWord("-D", IsBlank) && IsWord("-X", IsBlank) && IsWord("-j", IsBlank)
    ensures Lexing.AllWords(TOLERANT, IsBlank) && IsWord("2>/dev/null", IsBlank) && IsWord("||", IsBlank)
  {
  }

  lemma MatchWords()
    ensures Lexing.AllWords(["-p", "tcp", "-m", "multiport", "--dports"], IsBlank)
    ensures Lexing.AllWords(["-m", "conntrack", "--ctstate", "NEW"], IsBlank)
    ensures Lexing.AllWords(["-j", "DROP"], IsBlank)
  {
  }

  lemma SetMatchWords()
    ensures IsWord("-m", IsBlank) && IsWord("set", IsBlank) && IsWord("!", IsBlank) && IsWord("--match-set", IsBlank)
    ensures IsWord("src", IsBlank)
  {
  }

  lemma WordsBoth(a: Statement, b: Statement)
    requires Lexing.AllWords(a, IsBlank) && Lexing.AllWords(b, IsBlank)
    ensures Lexing.AllWords(a + b, IsBlank)
  {
  }

  lemma {:induction false} ConcatWord(ws: seq<string>)
    requires ws != [] && Lexing.AllWords(ws, IsBlank)
    ensures IsWord(Concat(ws, ","), IsBlank)
  {
    if |ws| > 1 {
      ConcatWord(ws[1..]);
    }
  }

  lemma RuleIsWords(r: Rule)
    requires r.ports != [] && (r.src.Any? || NameOk(r.src.set_))
    ensures Lexing.AllWords(RuleWords(r), IsBlank)
  {
    var ports := Nftables.Itoas(r.ports);
    PortsAreWords(r.ports);
    ConcatWord(ports);
    MatchWords();
    SetMatchWords();
    WordsBoth(SourceWords(r.src), ["-j", "DROP"]);
    var a, b := ["-p", "tcp", "-m", "multiport", "--dports"], ["-m", "conntrack", "--ctstate", "NEW"];
    WordsBoth(a, [Concat(ports, ",")]);
    WordsBoth(a + [Concat(ports, ",")], b);
    WordsBoth(a + [Concat(ports, ",")] + b, SourceWords(r.src) + ["-j", "DROP"]);
    assert RuleWords(r) == a + [Concat(ports, ",")] + b + (SourceWords(r.src) + ["-j", "DROP"]);
  }

  predicate HasPorts(cmd: Cmd) {
    cmd.Append? ==> cmd.rule.ports != []
  }

  lemma CmdIsWords(n: Names, cmd: Cmd)
    requires ProperNames(n) && CmdOk(cmd) && HasPorts(cmd)
    ensures Lexing.AllWords(CmdWords(n, cmd), IsBlank) && Counts(CmdWords(n, cmd))
  {
    FixedWords();
    OptionWords();
    if cmd.Append? {
      RuleIsWords(cmd.rule);
      WordsBoth([Bin(cmd.f), "-A", n.chain], RuleWords(cmd.rule));
    } else if NeverFails(cmd) {
      TolerantRead(n, cmd);
      WordsBoth(Bare(n, cmd), TOLERANT);
    }
    var first := CmdWords(n, cmd)[0];
    assert first == "ipset" || first == "iptables" || first == "ip6tables";
    CountsBy(CmdWords(n, cmd));
  }

  lemma {:induction false} LinesRead(n: Names, cmds: seq<Cmd>)
    requires ProperNames(n) && CmdsOk(cmds) && forall i :: 0 <= i < |cmds| ==> HasPorts(cmds[i])
    ensures Statements(CmdLines(n, cmds), IsBlank) == AllCmdWords(n, cmds)
  {
    if cmds != [] {
      var ws := CmdWords(n, cmds[0]);
      CmdIsWords(n, cmds[0]);
      FieldsOfConcat(ws, " ", IsBlank);
      LinesRead(n, cmds[1..]);
      StatementsCons(Concat(ws, " "), CmdLines(n, cmds[1..]), ws, IsBlank);
    }
  }

  lemma {:induction false} LinesOneLine(n: Names, cmds: seq<Cmd>)
    requires ProperNames(n) && CmdsOk(cmds) && forall i :: 0 <= i < |cmds| ==> HasPorts(cmds[i])
    ensures AllOneLine(CmdLines(n, cmds))
  {
    if cmds != [] {
      var ws := CmdWords(n, cmds[0]);
      CmdIsWords(n, cmds[0]);
      assert forall i :: 0 <= i < |ws| ==> IsWord(ws[i], IsBlank);
      ConcatOneLine(ws, " ");
      LinesOneLine(n, cmds[1..]);
    }
  }

  // ---------- the whole text ----------

  lemma NamesProper(id: string)
    requires ValidId(id)
    ensures ProperNames(NamesOf(id))
  {
    NamesDistinct(id);
    SanitizedWord(id);
    var s := HAProxy.Sanitize(id);
    assert forall i :: 0 <= i < |s| ==> !IsBlank(s[i]);
    assert ("IPWATCH_" + s)[0] == 'I' && (SetBase(id, V4))[0] == 'i' && (SetBase(id, V6))[0] == 'i';
    assert "true"[0] == 't';
  }

  lemma SanitizedWord(id: string)
    requires ValidId(id)
    ensures var s := HAProxy.Sanitize(id); forall i :: 0 <= i < |s| ==> IsIdChar(s[i])
  {
  }

  predicate EntriesOk(es: seq<string>) {
    forall i :: 0 <= i < |es| ==> NameOk(es[i])
  }

  /** Commands that may be written. */
  predicate Writable(cmds: seq<Cmd>) {
    CmdsOk(cmds) && forall i :: 0 <= i < |cmds| ==> HasPorts(cmds[i])
  }

  lemma {:induction false} AddsWritable(f: Family, cidrs: seq<string>)
    requires EntriesOk(cidrs)
    ensures Writable(Adds(f, cidrs))
  {
    if cidrs != [] {
      AddsWritable(f, cidrs[1..]);
    }
  }

  lemma WritableBoth(a: seq<Cmd>, b: seq<Cmd>)
    requires Writable(a) && Writable(b)
    ensures Writable(a + b)
  {
  }

  lemma FamilyWritable(f: Family, n: Names, ports: seq<int>, allow: bool, cidrs: seq<string>)
    requires ProperNames(n) && EntriesOk(cidrs) && ports != []
    ensures Writable(FamilyScript(f, n, ports, allow, cidrs))
  {
    if cidrs != [] || allow {
      var rule := FamilyRule(f, n, ports, allow, cidrs);
      assert Writable(Install(f, rule));
      if cidrs != [] {
        AddsWritable(f, cidrs);
        WritableBoth([CreateBase(f), CreateSwap(f), FlushSwap(f)], Adds(f, cidrs));
        WritableBoth([CreateBase(f), CreateSwap(f), FlushSwap(f)] + Adds(f, cidrs), [SwapSets(f), DestroySwap(f)]);
        WritableBoth(Fill(f, cidrs), Install(f, rule));
      } else {
        Units(Install(f, rule));
      }
    }
  }

  lemma ScriptWritable(t: Target, c: CIDRs)
    requires ProperNames(NamesOf(t.id)) && EntriesOk(c.v4) && EntriesOk(c.v6)
    ensures Writable(Script(t, c))
  {
    var n, ports, allow := NamesOf(t.id), FirewallPorts(t), t.mode != "deny";
    FamilyWritable(V4, n, ports, allow, c.v4);
    FamilyWritable(V6, n, ports, allow, c.v6);
    WritableBoth(FamilyScript(V4, n, ports, allow, c.v4), FamilyScript(V6, n, ports, allow, c.v6));
  }

  const SHEBANG := "#!/bin/sh"

  function HeadLines(t: Target, c: CIDRs): (r: seq<string>) {
    [SHEBANG, "set -e", "# ip-watch managed - provider: " + c.provider + "  mode: " + t.mode]
  }

  lemma HeadIsLines(t: Target, c: CIDRs)
    ensures Lines(HeadLines(t, c)) == HeadText(t, c)
  {
    var l3 := "# ip-watch managed - provider: " + c.provider + "  mode: " + t.mode;
    TwoLines("set -e", l3);
    LinesCons(SHEBANG, ["set -e", l3]);
    assert "#!/bin/sh\n" == SHEBANG + "\n" && "set -e\n" == "set -e" + "\n";
    assert HeadLines(t, c) == [SHEBANG] + ["set -e", l3];
    Assoc(SHEBANG + "\n", "set -e" + "\n", l3 + "\n");
  }

  lemma SetERead()
    ensures FieldsBy("set -e", IsBlank) == ["set", "-e"]
  {
    assert IsWord("set", IsBlank) && IsWord("-e", IsBlank);
    TwoWords("", "set", "-e", IsBlank);
    assert "" + ("set" + " " + "-e") == "set -e";
  }

  lemma HeadRead(t: Target, c: CIDRs, ls: seq<string>)
    ensures Statements(HeadLines(t, c) + ls, IsBlank) == [["set", "-e"]] + Statements(ls, IsBlank)
  {
    var l3 := "# ip-watch managed - provider: " + c.provider + "  mode: " + t.mode;
    assert l3[0] == '#';
    SetERead();
    CountsBy(["set", "-e"]);
    BetweenComments(SHEBANG, "set -e", l3, ["set", "-e"], ls);
  }

  /** A line between two comments. */
  lemma BetweenComments(a: string, line: string, b: string, ws: Statement, ls: seq<string>)
    requires a != [] && a[0] == '#' && b != [] && b[0] == '#' && FieldsBy(line, IsBlank) == ws && Counts(ws)
    ensures Statements([a, line, b] + ls, IsBlank) == [ws] + Statements(ls, IsBlank)
  {
    CommentSkipped(b, ls, IsBlank);
    StatementsCons(line, [b] + ls, ws, IsBlank);
    CommentSkipped(a, [line] + ([b] + ls), IsBlank);
    assert [a, line, b] + ls == [a] + ([line] + ([b] + ls));
  }

  lemma HeadOneLine(t: Target, c: CIDRs)
    requires OneLine(c.provider) && OneLine(t.mode)
    ensures AllOneLine(HeadLines(t, c))
  {
    CommentOneLine();
    assert OneLine("#!/bin/sh") && OneLine("set -e");
    assert OneLine("# ip-watch managed - provider: " + c.provider + "  mode: ");
  }

  lemma CommentOneLine()
    ensures OneLine("# ip-watch managed - provider: ") && OneLine("  mode: ")
  {
  }

  /** Reading the script gives back its commands: it ends at the first that fails, and none is read otherwise. */
  lemma ScriptReads(t: Target, c: CIDRs)
    requires ValidId(t.id) && OneLine(c.provider) && OneLine(t.mode) && EntriesOk(c.v4) && EntriesOk(c.v6)
    ensures ReadScript(NamesOf(t.id), ScriptText(t, c)) == Some(Script(t, c))
  {
    var n, cmds := NamesOf(t.id), Script(t, c);
    NamesProper(t.id);
    ScriptWritable(t, c);
    HeadIsLines(t, c);
    HeadOneLine(t, c);
    LinesOneLine(n, cmds);
    LinesConcat(HeadLines(t, c), CmdLines(n, cmds));
    OneLinesBoth(HeadLines(t, c), CmdLines(n, cmds));
    StatementsOfLines(HeadLines(t, c) + CmdLines(n, cmds), IsBlank);
    HeadRead(t, c, CmdLines(n, cmds));
    LinesRead(n, cmds);
    CmdsRead(n, cmds);
    assert ([["set", "-e"]] + AllCmdWords(n, cmds))[1..] == AllCmdWords(n, cmds);
  }

  lemma ShebangIsComment(ls: seq<string>)
    ensures OneLine(SHEBANG) && Statements([SHEBANG] + ls, IsBlank) == Statements(ls, IsBlank)
  {
    CommentSkipped(SHEBANG, ls, IsBlank);
  }

  lemma RemovalIsLines(id: string)
    ensures RemovalText(id) == Lines([SHEBANG] + CmdLines(NamesOf(id), RemoveScript()))
  {
    LinesCons(SHEBANG, CmdLines(NamesOf(id), RemoveScript()));
    assert "#!/bin/sh\n" == SHEBANG + "\n";
  }

  lemma RemovalWritable()
    ensures Writable(RemoveScript()) && forall i :: 0 <= i < |RemoveScript()| ==> NeverFails(RemoveScript()[i])
    ensures |RemoveScript()| > 0 && RemoveScript()[0] == DeleteJump(V4)
  {
  }

  lemma FirstStatement(n: Names, cmds: seq<Cmd>)
    requires |cmds| > 0 && cmds[0] == DeleteJump(V4)
    ensures var sts := AllCmdWords(n, cmds); sts != [] && sts[0] != ["set", "-e"]
  {
    assert CmdWords(n, cmds[0])[0] == "iptables" && ["set", "-e"][0] == "set";
    assert "iptables"[0] != "set"[0];
  }

  lemma RemovalStatements(id: string, cmds: seq<Cmd>)
    requires ValidId(id) && Writable(cmds)
    ensures StatementsOf(Lines([SHEBANG] + CmdLines(NamesOf(id), cmds)), IsBlank) == AllCmdWords(NamesOf(id), cmds)
    ensures ReadCmds(NamesOf(id), AllCmdWords(NamesOf(id), cmds)) == Some(cmds)
  {
    var n := NamesOf(id);
    NamesProper(id);
    LinesOneLine(n, cmds);
    ShebangIsComment(CmdLines(n, cmds));
    StatementsOfLines([SHEBANG] + CmdLines(n, cmds), IsBlank);
    LinesRead(n, cmds);
    CmdsRead(n, cmds);
  }

  /** So does reading the script of a removal, none of whose commands can fail. */
  lemma RemovalReads(id: string)
    requires ValidId(id)
    ensures ReadScript(NamesOf(id), RemovalText(id)) == Some(RemoveScript())
  {
    var cmds := RemoveScript();
    RemovalWritable();
    RemovalIsLines(id);
    RemovalStatements(id, cmds);
    FirstStatement(NamesOf(id), cmds);
  }

  method WriteScript(t: Target, c: CIDRs) returns (b: string)
    ensures b == ScriptText(t, c)
  {
    var n := NamesOf(t.id);
    var cmds := RenderIPTables(t, c);
    b := HeadText(t, c);
    for i := 0 to |cmds|
      invariant b == HeadText(t, c) + Lines(CmdLines(n, cmds[..i]))
    {
      NextLine(n, cmds, i, HeadText(t, c));
      b := b + (Concat(CmdWords(n, cmds[i]), " ") + "\n");
    }
    assert cmds[..|cmds|] == cmds;
  }

  lemma {:induction false} LinesBoth(n: Names, a: seq<Cmd>, b: seq<Cmd>)
    ensures CmdLines(n, a + b) == CmdLines(n, a) + CmdLines(n, b)
  {
    if a == [] {
      Units(b);
    } else {
      assert (a + b)[0] == a[0] && (a + b)[1..] == a[1..] + b;
      LinesBoth(n, a[1..], b);
    }
  }

  lemma NextLine(n: Names, cmds: seq<Cmd>, i: nat, head: string)
    requires i < |cmds|
    ensures var line := Concat(CmdWords(n, cmds[i]), " ") + "\n";
            head + Lines(CmdLines(n, cmds[..i + 1])) == head + Lines(CmdLines(n, cmds[..i])) + line
  {
    var line := Concat(CmdWords(n, cmds[i]), " ");
    assert cmds[..i + 1] == cmds[..i] + [cmds[i]];
    LinesBoth(n, cmds[..i], [cmds[i]]);
    LinesConcat(CmdLines(n, cmds[..i]), CmdLines(n, [cmds[i]]));
    LinesOne(line);
    Assoc(head, Lines(CmdLines(n, cmds[..i])), line + "\n");
  }
}
