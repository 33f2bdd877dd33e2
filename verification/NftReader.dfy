/** A reader of nft rulesets, and what it reads from the rendered one: the table, hence the policy. */
module NftReader {
  import opened Text
  import opened Policy
  import opened Fetcher
  import opened Targets
  import opened Lexing
  import opened Nftables
  import HAProxy

  // ---------- the reader ----------

  /** Blanks, and the commas of lists. */
  predicate IsGap(c: char) {
    c == ' ' || c == '\t' || c == ','
  }

  /** The family of a set's elements. */
  function ElementType(word: string): (r: Option<Family>) {
    if word == "ipv4_addr" then Some(V4) else if word == "ipv6_addr" then Some(V6) else None
  }

  /** The header in which a source address is looked at; it is that of one family's packets only. */
  function Protocol(word: string): (r: Option<Family>) {
    if word == "ip" then Some(V4) else if word == "ip6" then Some(V6) else None
  }

  function NfProto(word: string): (r: Option<Family>) {
    if word == "ipv4" then Some(V4) else if word == "ipv6" then Some(V6) else None
  }

  predicate IsReference(word: string) {
    HasPrefix(word, "@")
  }

  /** Number of words before the first closing brace. */
  function UpToBrace(ws: Statement): (n: nat)
    ensures n <= |ws|
  {
    if ws == [] || ws[0] == "}" then 0 else 1 + UpToBrace(ws[1..])
  }

  /** What a rule asks of new connections besides the port; it must drop. */
  function ReadGuard(ports: seq<int>, ws: Statement): (r: Option<Rule>) {
    if |ws| == 8 && ws[..3] == ["ct", "state", "new"] && Protocol(ws[3]).Some? && ws[4] == "saddr" && ws[5] == "!="
       && IsReference(ws[6]) && ws[7] == "drop" then Some(Rule(ports, Protocol(ws[3]).value, Outside(ws[6][1..])))
    else if |ws| == 7 && ws[..3] == ["ct", "state", "new"] && Protocol(ws[3]).Some? && ws[4] == "saddr"
            && IsReference(ws[5]) && ws[6] == "drop" then Some(Rule(ports, Protocol(ws[3]).value, Inside(ws[5][1..])))
    else if |ws| == 7 && ws[..2] == ["meta", "nfproto"] && NfProto(ws[2]).Some?
            && ws[3..] == ["ct", "state", "new", "drop"] then Some(Rule(ports, NfProto(ws[2]).value, Any))
    else None
  }

  function ReadRule(ws: Statement): (r: Option<Rule>) {
    if |ws| < 3 || ws[..3] != ["tcp", "dport", "{"] then None
    else
      var n := UpToBrace(ws[3..]);
      if 3 + n == |ws| then None else ReadGuard(Atois(ws[3..3 + n]), ws[3 + n + 1..])
  }

  /** The rules up to the chain's closing brace, and what follows it. */
  function ReadRules(sts: seq<Statement>): (r: Option<(seq<Rule>, seq<Statement>)>)
    ensures r.Some? ==> |r.value.1| < |sts|
  {
    if sts == [] then None
    else if sts[0] == ["}"] then Some(([], sts[1..]))
    else
      var first, more := ReadRule(sts[0]), ReadRules(sts[1..]);
      if first.None? || more.None? then None else Some(([first.value] + more.value.0, more.value.1))
  }

  function ReadElements(ws: Statement): (r: Option<seq<string>>) {
    if |ws| >= 4 && ws[..3] == ["elements", "=", "{"] && ws[|ws| - 1] == "}" then Some(ws[3..|ws| - 1]) else None
  }

  /** What stands in a set's braces: its type, that it holds intervals, and its elements. */
  function ReadSet(name: string, sts: seq<Statement>): (r: Option<NetSet>) {
    if |sts| == 3 && |sts[0]| == 2 && sts[0][0] == "type" && ElementType(sts[0][1]).Some?
       && sts[1] == ["flags", "interval"] && ReadElements(sts[2]).Some?
    then Some(NetSet(name, ElementType(sts[0][1]).value, ReadElements(sts[2]).value))
    else None
  }

  const INPUT_HOOK := ["type", "filter", "hook", "input", "priority", "-10;", "policy", "accept;"]

  /** The sets and the rules of the input chain, up to the table's closing brace at the end of the text. */
  function ReadBody(sts: seq<Statement>): (r: Option<(seq<NetSet>, seq<Rule>)>)
    decreases |sts|
  {
    if sts == [["}"]] then Some(([], []))
    else if |sts| >= 5 && |sts[0]| == 3 && sts[0][0] == "set" && sts[0][2] == "{" && sts[4] == ["}"] then
      var first, more := ReadSet(sts[0][1], sts[1..4]), ReadBody(sts[5..]);
      if first.None? || more.None? then None else Some(([first.value] + more.value.0, more.value.1))
    else if |sts| >= 2 && sts[0] == ["chain", "input", "{"] && sts[1] == INPUT_HOOK then
      var rules := ReadRules(sts[2..]);
      if rules.None? then None
      else
        var more := ReadBody(rules.value.1);
        if more.None? then None else Some((more.value.0, rules.value.0 + more.value.1))
    else None
  }

  /** A script that replaces a table: it is added and deleted, so that it is gone, and then defined. */
  function ReadScript(sts: seq<Statement>): (r: Option<Table>) {
    if |sts| >= 3 && |sts[2]| == 4 && sts[2][..2] == ["table", "inet"] && sts[2][3] == "{"
       && sts[0] == ["add", "table", "inet", sts[2][2]] && sts[1] == ["delete", "table", "inet", sts[2][2]]
    then
      var body := ReadBody(sts[3..]);
      if body.None? then None else Some(Table(sts[2][2], body.value.0, body.value.1))
    else None
  }

  function ReadRuleset(text: string): (r: Option<Table>) {
    ReadScript(StatementsOf(text, IsGap))
  }

  // ---------- what is written, as statements ----------

  /** One word on one line, and no brace: what a CIDR is. */
  predicate IsElement(e: string) {
    IsWord(e, IsGap) && OneLine(e) && e != "}"
  }

  predicate AllElements(es: seq<string>) {
    forall i :: 0 <= i < |es| ==> IsElement(es[i])
  }

  /** What is written must not break lines and words. */
  predicate Writable(t: Target, c: CIDRs) {
    && OneLine(c.provider) && OneLine(t.mode) && IsWord(TableName(t.id), IsGap) && OneLine(TableName(t.id))
    && AllElements(c.v4) && AllElements(c.v6)
  }

  function HeadStatements(name: string): (r: seq<Statement>) {
    [["add", "table", "inet", name], ["delete", "table", "inet", name], ["table", "inet", name, "{"]]
  }

  function SetStatements(s: NetSet): (r: seq<Statement>) {
    [["set", s.name, "{"], ["type", if s.family.V4? then "ipv4_addr" else "ipv6_addr"], ["flags", "interval"],
     ["elements", "=", "{"] + s.elements + ["}"], ["}"]]
  }

  function GuardWords(f: Family, g: Guard): (r: Statement) {
    var family := if f.V4? then "ip" else "ip6";
    match g
    case Outside(s) => ["ct", "state", "new", family, "saddr", "!=", "@" + s, "drop"]
    case Inside(s) => ["ct", "state", "new", family, "saddr", "@" + s, "drop"]
    case Any => ["meta", "nfproto", if f.V4? then "ipv4" else "ipv6", "ct", "state", "new", "drop"]
  }

  function RuleStatement(r: Rule): (st: Statement) {
    ["tcp", "dport", "{"] + Itoas(r.ports) + (["}"] + GuardWords(r.family, r.guard))
  }

  function AllSets(sets: seq<NetSet>): (r: seq<Statement>) {
    if sets == [] then [] else SetStatements(sets[0]) + AllSets(sets[1..])
  }

  function AllRules(rules: seq<Rule>): (r: seq<Statement>) {
    if rules == [] then [] else [RuleStatement(rules[0])] + AllRules(rules[1..])
  }

  // ---------- reading these statements ----------

  lemma GuardRead(ports: seq<int>, f: Family, g: Guard)
    ensures ReadGuard(ports, GuardWords(f, g)) == Some(Rule(ports, f, g))
  {
    var ws := GuardWords(f, g);
    match g {
      case Outside(s) =>
        assert ws[..3] == ["ct", "state", "new"] && ("@" + s)[1..] == s;
      case Inside(s) =>
        assert ws[..3] == ["ct", "state", "new"] && ("@" + s)[1..] == s;
      case Any =>
        assert ws[..2] == ["meta", "nfproto"] && ws[3..] == ["ct", "state", "new", "drop"];
    }
  }

  lemma {:induction false} BraceFound(ws: seq<string>, more: seq<string>)
    requires "}" !in ws
    ensures UpToBrace(ws + (["}"] + more)) == |ws|
  {
    if ws == [] {
      assert ws + (["}"] + more) == ["}"] + more;
    } else {
      assert (ws + (["}"] + more))[0] == ws[0] && (ws + (["}"] + more))[1..] == ws[1..] + (["}"] + more);
      BraceFound(ws[1..], more);
    }
  }

  lemma {:induction false} PortsAreNoBraces(ports: seq<int>)
    ensures "}" !in Itoas(ports)
  {
    if ports != [] {
      PortsAreNoBraces(ports[..|ports| - 1]);
      NumberIsElement(ports[|ports| - 1]);
    }
  }

  lemma NumberIsElement(n: int)
    ensures IsElement(Itoa(n))
  {
    DigitsAreDigits(if n < 0 then -n else n);
  }

  lemma RuleRead(r: Rule)
    ensures ReadRule(RuleStatement(r)) == Some(r)
  {
    var ws := RuleStatement(r);
    var ports, tail := Itoas(r.ports), GuardWords(r.family, r.guard);
    PortsAreNoBraces(r.ports);
    BraceFound(ports, tail);
    assert ws[..3] == ["tcp", "dport", "{"] && ws[3..] == ports + (["}"] + tail);
    assert ws[3..3 + |ports|] == ports && ws[3 + |ports| + 1..] == tail;
    ItoasAtois(r.ports);
    GuardRead(r.ports, r.family, r.guard);
  }

  lemma RuleThen(st: Statement, r: Rule, sts: seq<Statement>, rules: seq<Rule>, rest: seq<Statement>)
    requires |st| > 1 && ReadRule(st) == Some(r) && ReadRules(sts) == Some((rules, rest))
    ensures ReadRules([st] + sts) == Some(([r] + rules, rest))
  {
    assert ([st] + sts)[1..] == sts;
  }

  lemma {:induction false} RulesRead(rules: seq<Rule>, rest: seq<Statement>)
    ensures ReadRules(AllRules(rules) + ([["}"]] + rest)) == Some((rules, rest))
  {
    var end := [["}"]] + rest;
    if rules == [] {
      assert AllRules(rules) + end == end && end[1..] == rest;
    } else {
      RuleRead(rules[0]);
      RulesRead(rules[1..], rest);
      RuleThen(RuleStatement(rules[0]), rules[0], AllRules(rules[1..]) + end, rules[1..], rest);
      Assoc([RuleStatement(rules[0])], AllRules(rules[1..]), end);
      assert rules == [rules[0]] + rules[1..];
    }
  }

  lemma SetRead(s: NetSet)
    ensures ReadSet(s.name, SetStatements(s)[1..4]) == Some(s)
  {
    var sts := SetStatements(s)[1..4];
    var es := ["elements", "=", "{"] + s.elements + ["}"];
    assert sts[2] == es && es[..3] == ["elements", "=", "{"] && es[3..|es| - 1] == s.elements;
  }

  lemma ChainRead(rules: seq<Rule>)
    ensures ReadBody([["chain", "input", "{"], INPUT_HOOK] + (AllRules(rules) + [["}"], ["}"]])) == Some(([], rules))
  {
    var sts := [["chain", "input", "{"], INPUT_HOOK] + (AllRules(rules) + [["}"], ["}"]]);
    assert [["}"], ["}"]] == [["}"]] + [["}"]];
    RulesRead(rules, [["}"]]);
    assert sts[2..] == AllRules(rules) + ([["}"]] + [["}"]]);
    Units(rules);
  }

  lemma SetThen(s: NetSet, block: seq<Statement>, sts: seq<Statement>, sets: seq<NetSet>, rules: seq<Rule>)
    requires |block| == 5 && block[0] == ["set", s.name, "{"] && block[4] == ["}"]
    requires ReadSet(s.name, block[1..4]) == Some(s)
    requires ReadBody(sts) == Some((sets, rules))
    ensures ReadBody(block + sts) == Some(([s] + sets, rules))
  {
    var all := block + sts;
    assert all[1..4] == block[1..4] && all[5..] == sts && all[0] == block[0] && all[4] == block[4];
  }

  lemma {:induction false} BodyRead(sets: seq<NetSet>, rules: seq<Rule>, chain: seq<Statement>)
    requires ReadBody(chain) == Some(([], rules))
    ensures ReadBody(AllSets(sets) + chain) == Some((sets, rules))
  {
    if sets == [] {
      Units(chain);
    } else {
      BodyRead(sets[1..], rules, chain);
      SetRead(sets[0]);
      SetThen(sets[0], SetStatements(sets[0]), AllSets(sets[1..]) + chain, sets[1..], rules);
      Assoc(SetStatements(sets[0]), AllSets(sets[1..]), chain);
      assert sets == [sets[0]] + sets[1..];
    }
  }

  lemma ScriptRead(table: Table, body: seq<Statement>)
    requires ReadBody(body) == Some((table.sets, table.rules))
    ensures ReadScript(HeadStatements(table.name) + body) == Some(table)
  {
    var sts := HeadStatements(table.name) + body;
    assert sts[3..] == body && sts[2][..2] == ["table", "inet"];
  }

  // ---------- the text, line by line ----------

  function HeadLines(name: string, c: CIDRs, mode: string): (r: seq<string>) {
    ["#!/usr/sbin/nft -f", "# ip-watch managed ruleset - provider: " + c.provider + "  mode: " + mode,
     "add table inet " + name, "delete table inet " + name, "table inet " + name + " {"]
  }

  function SetLines(s: NetSet): (r: seq<string>) {
    ["  set " + s.name + " {", "    type " + (if s.family.V4? then "ipv4_addr" else "ipv6_addr"), "    flags interval",
     "    elements = { " + Concat(s.elements, ", ") + " }", "  }"]
  }

  function RuleLine(r: Rule): (l: string) {
    "    tcp dport { " + Concat(Itoas(r.ports), ", ") + (" } " + Concat(GuardWords(r.family, r.guard), " "))
  }

  const CHAIN_LINES := ["  chain input {", HOOK]

  lemma FiveLines(a: string, b: string, c: string, d: string, e: string)
    ensures Lines([a, b, c, d, e]) == a + "\n" + (b + "\n" + (c + "\n" + (d + "\n" + (e + "\n"))))
  {
    LinesOne(e);
    LinesCons(d, [e]);
    LinesCons(c, [d, e]);
    LinesCons(b, [c, d, e]);
    LinesCons(a, [b, c, d, e]);
    assert [d] + [e] == [d, e] && [c] + [d, e] == [c, d, e] && [b] + [c, d, e] == [b, c, d, e];
    assert [a] + [b, c, d, e] == [a, b, c, d, e];
  }

  lemma HeadIsLines(name: string, c: CIDRs, mode: string)
    ensures Head(name, c, mode) == Lines(HeadLines(name, c, mode))
  {
    var l2 := "# ip-watch managed ruleset - provider: " + c.provider + "  mode: " + mode;
    FiveLines("#!/usr/sbin/nft -f", l2, "add table inet " + name, "delete table inet " + name,
              "table inet " + name + " {");
    HeadPieces(name);
    HeadJoined("#!/usr/sbin/nft -f", l2, "add table inet " + name, "delete table inet " + name,
               "table inet " + name + " {");
  }

  lemma HeadPieces(name: string)
    ensures "#!/usr/sbin/nft -f\n" == "#!/usr/sbin/nft -f" + "\n"
    ensures "table inet " + name + " {\n" == "table inet " + name + " {" + "\n"
  {
  }

  lemma HeadJoined(a: string, b: string, c: string, d: string, e: string)
    ensures a + "\n" + (b + "\n") + (c + "\n") + (d + "\n") + (e + "\n")
         == a + "\n" + (b + "\n" + (c + "\n" + (d + "\n" + (e + "\n"))))
  {
  }

  lemma SetPieces()
    ensures " {\n    type " == " {" + "\n" + "    type "
    ensures "\n    flags interval\n    elements = { " == "\n" + "    flags interval" + "\n" + "    elements = { "
    ensures " }\n  }\n" == " }" + "\n" + "  }" + "\n"
  {
  }

  lemma SetJoined(a: string, name: string, b: string, c: string, ty: string, d: string, e: string, es: string,
                  f: string, g: string)
    ensures a + name + (b + "\n" + c) + ty + ("\n" + d + "\n" + e) + es + (f + "\n" + g + "\n")
         == a + name + b + "\n" + (c + ty + "\n" + (d + "\n" + (e + es + f + "\n" + (g + "\n"))))
  {
  }

  lemma SetIsLines(s: NetSet)
    ensures SetText(s) == Lines(SetLines(s))
  {
    var ty := if s.family.V4? then "ipv4_addr" else "ipv6_addr";
    var es := Concat(s.elements, ", ");
    FiveLines("  set " + s.name + " {", "    type " + ty, "    flags interval", "    elements = { " + es + " }", "  }");
    SetPieces();
    SetJoined("  set ", s.name, " {", "    type ", ty, "    flags interval", "    elements = { ", es, " }", "  }");
  }

  lemma GuardPieces()
    ensures " ct state new " == " " + "ct" + " " + "state" + " " + "new" + " "
    ensures " saddr != @" == " " + "saddr" + " " + "!=" + " " + "@"
    ensures " saddr @" == " " + "saddr" + " " + "@"
    ensures " drop\n" == " " + "drop" + "\n"
    ensures " meta nfproto " == " " + "meta" + " " + "nfproto" + " "
    ensures " ct state new drop\n" == " " + "ct" + " " + "state" + " " + "new" + " " + "drop" + "\n"
  {
  }

  lemma OutsideJoined(a: string, b: string, c: string, d: string, e: string, f: string, g: string, s: string, h: string)
    ensures (" " + a + " " + b + " " + c + " ") + d + (" " + e + " " + f + " " + g) + s + (" " + h + "\n")
         == " " + (a + " " + (b + " " + (c + " " + (d + " " + (e + " " + (f + " " + ((g + s) + " " + h))))))) + "\n"
  {
  }

  lemma InsideJoined(a: string, b: string, c: string, d: string, e: string, g: string, s: string, h: string)
    ensures (" " + a + " " + b + " " + c + " ") + d + (" " + e + " " + g) + s + (" " + h + "\n")
         == " " + (a + " " + (b + " " + (c + " " + (d + " " + (e + " " + ((g + s) + " " + h)))))) + "\n"
  {
  }

  lemma AnyJoined(a: string, b: string, c: string, d: string, e: string, f: string, g: string)
    ensures (" " + a + " " + b + " ") + c + (" " + d + " " + e + " " + f + " " + g + "\n")
         == " " + (a + " " + (b + " " + (c + " " + (d + " " + (e + " " + (f + " " + g)))))) + "\n"
  {
  }

  /** The words after a blank, then the end of the line. */
  lemma GuardIsWords(f: Family, g: Guard)
    ensures GuardText(f, g) == " " + Concat(GuardWords(f, g), " ") + "\n"
  {
    var family, proto := if f.V4? then "ip" else "ip6", if f.V4? then "ipv4" else "ipv6";
    GuardPieces();
    match g {
      case Outside(s) =>
        EightWords("ct", "state", "new", family, "saddr", "!=", "@" + s, "drop");
        OutsideJoined("ct", "state", "new", family, "saddr", "!=", "@", s, "drop");
      case Inside(s) =>
        SevenWords("ct", "state", "new", family, "saddr", "@" + s, "drop");
        InsideJoined("ct", "state", "new", family, "saddr", "@", s, "drop");
      case Any =>
        SevenWords("meta", "nfproto", proto, "ct", "state", "new", "drop");
        AnyJoined("meta", "nfproto", proto, "ct", "state", "new", "drop");
    }
  }

  lemma SevenWords(a: string, b: string, c: string, d: string, e: string, f: string, g: string)
    ensures Concat([a, b, c, d, e, f, g], " ")
         == a + " " + (b + " " + (c + " " + (d + " " + (e + " " + (f + " " + g)))))
  {
    FourWords(d, e, f, g);
    ConcatCons(c, [d, e, f, g], " ");
    ConcatCons(b, [c, d, e, f, g], " ");
    ConcatCons(a, [b, c, d, e, f, g], " ");
    assert [c] + [d, e, f, g] == [c, d, e, f, g] && [b] + [c, d, e, f, g] == [b, c, d, e, f, g];
    assert [a] + [b, c, d, e, f, g] == [a, b, c, d, e, f, g];
  }

  lemma EightWords(a: string, b: string, c: string, d: string, e: string, f: string, g: string, h: string)
    ensures Concat([a, b, c, d, e, f, g, h], " ")
         == a + " " + (b + " " + (c + " " + (d + " " + (e + " " + (f + " " + (g + " " + h))))))
  {
    SevenWords(b, c, d, e, f, g, h);
    ConcatCons(a, [b, c, d, e, f, g, h], " ");
    assert [a] + [b, c, d, e, f, g, h] == [a, b, c, d, e, f, g, h];
  }

  lemma RuleIsLine(r: Rule)
    ensures RuleText(r) == Lines([RuleLine(r)])
  {
    LinesOne(RuleLine(r));
    GuardIsWords(r.family, r.guard);
  }

  // ---------- the lines, word by word ----------

  lemma InetPieces()
    ensures "add table inet " == "add" + " " + "table" + " " + "inet" + " "
    ensures "delete table inet " == "delete" + " " + "table" + " " + "inet" + " "
    ensures "table inet " == "table" + " " + "inet" + " " && " {" == " " + "{"
  {
  }

  lemma InetWords()
    ensures IsWord("add", IsGap) && IsWord("delete", IsGap) && IsWord("table", IsGap) && IsWord("inet", IsGap)
    ensures IsWord("{", IsGap)
  {
  }

  lemma InetLines(name: string)
    requires IsWord(name, IsGap)
    ensures FieldsBy("add table inet " + name, IsGap) == ["add", "table", "inet", name]
    ensures FieldsBy("delete table inet " + name, IsGap) == ["delete", "table", "inet", name]
    ensures FieldsBy("table inet " + name + " {", IsGap) == ["table", "inet", name, "{"]
  {
    InetPieces();
    InetWords();
    FourInLine("add", "table", "inet", name, IsGap);
    FourInLine("delete", "table", "inet", name, IsGap);
    FourInLine("table", "inet", name, "{", IsGap);
    Assoc("table" + " " + "inet" + " " + name, " ", "{");
  }

  /** Two comments, then three statements. */
  lemma AfterComments(l1: string, l2: string, l3: string, l4: string, l5: string,
                      s3: Statement, s4: Statement, s5: Statement)
    requires l1 != "" && l1[0] == '#' && l2 != "" && l2[0] == '#'
    requires FieldsBy(l3, IsGap) == s3 && FieldsBy(l4, IsGap) == s4 && FieldsBy(l5, IsGap) == s5
    requires Counts(s3) && Counts(s4) && Counts(s5)
    ensures Statements([l1, l2, l3, l4, l5], IsGap) == [s3, s4, s5]
  {
    StatementOne(l5, s5, IsGap);
    StatementsCons(l4, [l5], s4, IsGap);
    StatementsCons(l3, [l4] + [l5], s3, IsGap);
    CommentSkipped(l2, [l3] + ([l4] + [l5]), IsGap);
    CommentSkipped(l1, [l2] + ([l3] + ([l4] + [l5])), IsGap);
    assert [l1, l2, l3, l4, l5] == [l1] + ([l2] + ([l3] + ([l4] + [l5])));
  }

  lemma HeadRead(name: string, c: CIDRs, mode: string)
    requires IsWord(name, IsGap)
    ensures Statements(HeadLines(name, c, mode), IsGap) == HeadStatements(name)
  {
    InetLines(name);
    CommentsFirst(c, mode);
    AfterComments("#!/usr/sbin/nft -f", "# ip-watch managed ruleset - provider: " + c.provider + "  mode: " + mode,
                  "add table inet " + name, "delete table inet " + name, "table inet " + name + " {",
                  ["add", "table", "inet", name], ["delete", "table", "inet", name], ["table", "inet", name, "{"]);
  }

  lemma CommentsFirst(c: CIDRs, mode: string)
    ensures "#!/usr/sbin/nft -f"[0] == '#'
    ensures ("# ip-watch managed ruleset - provider: " + c.provider + "  mode: " + mode)[0] == '#'
  {
  }

  /** A list between words. */
  lemma ListLine(a: string, es: seq<string>, z: string, head: Statement, tail: Statement)
    requires AllElements(es) && a != "" && IsGap(a[|a| - 1]) && z != "" && IsGap(z[0])
    requires FieldsBy(a, IsGap) == head && FieldsBy(z, IsGap) == tail
    ensures FieldsBy(a + Concat(es, ", ") + z, IsGap) == head + es + tail
  {
    FieldsSeam(a + Concat(es, ", "), z, IsGap);
    FieldsSeam(a, Concat(es, ", "), IsGap);
    FieldsOfConcat(es, ", ", IsGap);
  }

  lemma ElementsPieces()
    ensures "    elements = { " == "    " + ("elements" + " " + ("=" + " " + "{")) + " " && " }" == " " + "}"
    ensures IsWord("elements", IsGap) && IsWord("=", IsGap) && IsWord("}", IsGap)
  {
  }

  lemma ElementsLine(es: seq<string>)
    requires AllElements(es)
    ensures FieldsBy("    elements = { " + Concat(es, ", ") + " }", IsGap) == ["elements", "=", "{"] + es + ["}"]
  {
    ElementsPieces();
    OpenBrace("elements", "=");
    BlankFront(" ", "}", IsGap);
    OneWord("}", IsGap);
    ListLine("    elements = { ", es, " }", ["elements", "=", "{"], ["}"]);
  }

  /** Words in front of a list. */
  lemma OpenBrace(a: string, b: string)
    requires IsWord(a, IsGap) && IsWord(b, IsGap)
    ensures FieldsBy("    " + (a + " " + (b + " " + "{")) + " ", IsGap) == [a, b, "{"]
  {
    ThreeWords("    ", a, b, "{", IsGap);
    FieldsSeam("    " + (a + " " + (b + " " + "{")), " ", IsGap);
    BlankFront(" ", "", IsGap);
    Units(" ");
  }

  lemma SetWords()
    ensures IsWord("set", IsGap) && IsWord("{", IsGap) && IsWord("}", IsGap) && IsWord("type", IsGap)
    ensures IsWord("ipv4_addr", IsGap) && IsWord("ipv6_addr", IsGap)
    ensures IsWord("flags", IsGap) && IsWord("interval", IsGap)
  {
  }

  lemma SetLinePieces()
    ensures "  set " == "  " + "set" + " " && " {" == " " + "{" && "    type " == "    " + "type" + " "
    ensures "    flags interval" == "    " + ("flags" + " " + "interval") && "  }" == "  " + "}"
  {
  }

  lemma SetOpening(name: string)
    requires IsWord(name, IsGap)
    ensures FieldsBy("  set " + name + " {", IsGap) == ["set", name, "{"]
  {
    SetWords();
    SetLinePieces();
    ThreeWords("  ", "set", name, "{", IsGap);
    Regroup("  ", "set", name, "{");
  }

  lemma Regroup(pad: string, a: string, b: string, c: string)
    ensures pad + a + " " + b + (" " + c) == pad + (a + " " + (b + " " + c))
  {
  }

  lemma TypeLine(ty: string)
    requires IsWord(ty, IsGap)
    ensures FieldsBy("    type " + ty, IsGap) == ["type", ty]
  {
    SetWords();
    SetLinePieces();
    TwoWords("    ", "type", ty, IsGap);
    assert "    " + "type" + " " + ty == "    " + ("type" + " " + ty);
  }

  lemma FlagsLine()
    ensures FieldsBy("    flags interval", IsGap) == ["flags", "interval"]
    ensures FieldsBy("  }", IsGap) == ["}"]
  {
    SetWords();
    SetLinePieces();
    TwoWords("    ", "flags", "interval", IsGap);
    BlankFront("  ", "}", IsGap);
    OneWord("}", IsGap);
  }

  lemma SetCounts(name: string, ty: string, es: seq<string>)
    ensures Counts(["set", name, "{"]) && Counts(["type", ty]) && Counts(["flags", "interval"])
    ensures Counts(["elements", "=", "{"] + es + ["}"]) && Counts(["}"])
  {
    CountsBy(["set", name, "{"]);
    CountsBy(["type", ty]);
    CountsBy(["flags", "interval"]);
    assert (["elements", "=", "{"] + es + ["}"])[0] == "elements";
    CountsBy(["elements", "=", "{"] + es + ["}"]);
    CountsBy(["}"]);
  }

  lemma SetLinesRead(s: NetSet)
    requires IsWord(s.name, IsGap) && AllElements(s.elements)
    ensures Statements(SetLines(s), IsGap) == SetStatements(s)
  {
    var ty := if s.family.V4? then "ipv4_addr" else "ipv6_addr";
    assert IsWord(ty, IsGap) by {
      SetWords();
    }
    SetLinesOf(s.name, ty, s.elements);
  }

  lemma SetLinesOf(name: string, ty: string, es: seq<string>)
    requires IsWord(name, IsGap) && IsWord(ty, IsGap) && AllElements(es)
    ensures Statements(["  set " + name + " {", "    type " + ty, "    flags interval",
                        "    elements = { " + Concat(es, ", ") + " }", "  }"], IsGap)
         == [["set", name, "{"], ["type", ty], ["flags", "interval"], ["elements", "=", "{"] + es + ["}"], ["}"]]
  {
    SetOpening(name);
    TypeLine(ty);
    FlagsLine();
    ElementsLine(es);
    SetCounts(name, ty, es);
    FiveStatements("  set " + name + " {", "    type " + ty, "    flags interval",
                   "    elements = { " + Concat(es, ", ") + " }", "  }", ["set", name, "{"], ["type", ty],
                   ["flags", "interval"], ["elements", "=", "{"] + es + ["}"], ["}"]);
  }

  lemma FiveStatements(l1: string, l2: string, l3: string, l4: string, l5: string,
                       s1: Statement, s2: Statement, s3: Statement, s4: Statement, s5: Statement)
    requires FieldsBy(l1, IsGap) == s1 && FieldsBy(l2, IsGap) == s2 && FieldsBy(l3, IsGap) == s3
    requires FieldsBy(l4, IsGap) == s4 && FieldsBy(l5, IsGap) == s5
    requires Counts(s1) && Counts(s2) && Counts(s3) && Counts(s4) && Counts(s5)
    ensures Statements([l1, l2, l3, l4, l5], IsGap) == [s1, s2, s3, s4, s5]
  {
    StatementOne(l5, s5, IsGap);
    StatementsCons(l4, [l5], s4, IsGap);
    StatementsCons(l3, [l4] + [l5], s3, IsGap);
    StatementsCons(l2, [l3] + ([l4] + [l5]), s2, IsGap);
    StatementsCons(l1, [l2] + ([l3] + ([l4] + [l5])), s1, IsGap);
    assert [l1, l2, l3, l4, l5] == [l1] + ([l2] + ([l3] + ([l4] + [l5])));
  }

  lemma PortsAreWords(ports: seq<int>)
    ensures AllElements(Itoas(ports))
  {
    forall i | 0 <= i < |ports| ensures IsElement(Itoas(ports)[i]) {
      ItoasAt(ports, i);
      NumberIsElement(ports[i]);
    }
  }

  lemma {:induction false} ItoasAt(ports: seq<int>, i: nat)
    requires i < |ports|
    ensures Itoas(ports)[i] == Itoa(ports[i])
  {
    if i < |ports| - 1 {
      ItoasAt(ports[..|ports| - 1], i);
    }
  }

  lemma GuardIsSpoken(f: Family, g: Guard)
    requires g.Any? || IsWord(g.setName, IsGap)
    ensures Lexing.AllWords(GuardWords(f, g), IsGap)
  {
  }

  lemma DportPieces()
    ensures "    tcp dport { " == "    " + ("tcp" + " " + ("dport" + " " + "{")) + " "
    ensures IsWord("tcp", IsGap) && IsWord("dport", IsGap)
  {
  }

  lemma RuleLineRead(r: Rule)
    requires r.guard.Any? || IsWord(r.guard.setName, IsGap)
    ensures FieldsBy(RuleLine(r), IsGap) == RuleStatement(r)
  {
    var guard := Concat(GuardWords(r.family, r.guard), " ");
    GuardIsSpoken(r.family, r.guard);
    FieldsOfConcat(GuardWords(r.family, r.guard), " ", IsGap);
    DportPieces();
    OpenBrace("tcp", "dport");
    CloseBrace(guard);
    PortsAreWords(r.ports);
    ListLine("    tcp dport { ", Itoas(r.ports), " } " + guard, ["tcp", "dport", "{"],
             ["}"] + GuardWords(r.family, r.guard));
  }

  lemma CloseBrace(guard: string)
    ensures FieldsBy(" } " + guard, IsGap) == ["}"] + FieldsBy(guard, IsGap)
  {
    FieldsSeam(" } ", guard, IsGap);
    BlankFront(" ", "} ", IsGap);
    WordFront("}", " ", IsGap);
    BlankFront(" ", "", IsGap);
    assert " } " == " " + "} " && "} " == "}" + " " && " " == " " + "";
  }

  // ---------- the whole text ----------

  function AllSetLines(sets: seq<NetSet>): (r: seq<string>) {
    if sets == [] then [] else SetLines(sets[0]) + AllSetLines(sets[1..])
  }

  function AllRuleLines(rules: seq<Rule>): (r: seq<string>) {
    if rules == [] then [] else [RuleLine(rules[0])] + AllRuleLines(rules[1..])
  }

  lemma {:induction false} SetsAreLines(sets: seq<NetSet>)
    ensures SetTexts(sets) == Lines(AllSetLines(sets))
  {
    if sets != [] {
      SetsAreLines(sets[1..]);
      SetIsLines(sets[0]);
      LinesConcat(SetLines(sets[0]), AllSetLines(sets[1..]));
    }
  }

  lemma {:induction false} RulesAreLines(rules: seq<Rule>)
    ensures RuleTexts(rules) == Lines(AllRuleLines(rules))
  {
    if rules != [] {
      RulesAreLines(rules[1..]);
      RuleIsLine(rules[0]);
      LinesConcat([RuleLine(rules[0])], AllRuleLines(rules[1..]));
    }
  }

  predicate SetsOk(sets: seq<NetSet>) {
    forall i :: 0 <= i < |sets| ==>
      IsWord(sets[i].name, IsGap) && OneLine(sets[i].name) && AllElements(sets[i].elements)
  }

  predicate RuleOk(r: Rule) {
    r.guard.Any? || (IsWord(r.guard.setName, IsGap) && OneLine(r.guard.setName))
  }

  lemma {:induction false} SetLinesAre(sets: seq<NetSet>)
    requires SetsOk(sets)
    ensures Statements(AllSetLines(sets), IsGap) == AllSets(sets)
  {
    if sets != [] {
      SetLinesAre(sets[1..]);
      SetLinesRead(sets[0]);
      StatementsConcat(SetLines(sets[0]), AllSetLines(sets[1..]), IsGap);
    }
  }

  lemma {:induction false} RuleLinesAre(rules: seq<Rule>)
    requires forall i :: 0 <= i < |rules| ==> RuleOk(rules[i])
    ensures Statements(AllRuleLines(rules), IsGap) == AllRules(rules)
  {
    if rules != [] {
      RuleLinesAre(rules[1..]);
      RuleLineRead(rules[0]);
      assert RuleStatement(rules[0])[0] == "tcp";
      CountsBy(RuleStatement(rules[0]));
      StatementsCons(RuleLine(rules[0]), AllRuleLines(rules[1..]), RuleStatement(rules[0]), IsGap);
    }
  }

  lemma ChainPieces()
    ensures "  chain input {\n" == "  chain input {" + "\n"
    ensures "  }\n" == "  }" + "\n" && "}\n" == "}" + "\n"
  {
  }

  lemma ChainIsLines()
    ensures CHAIN == Lines(CHAIN_LINES) && END == Lines(["  }", "}"])
  {
    ChainPieces();
    TwoLines("  chain input {", HOOK);
    TwoLines("  }", "}");
  }

  lemma ChainWords()
    ensures IsWord("chain", IsGap) && IsWord("input", IsGap) && IsWord("{", IsGap) && IsWord("}", IsGap)
    ensures IsWord("type", IsGap) && IsWord("filter", IsGap) && IsWord("hook", IsGap)
    ensures IsWord("priority", IsGap) && IsWord("-10;", IsGap) && IsWord("policy", IsGap) && IsWord("accept;", IsGap)
  {
  }

  lemma HookPieces()
    ensures "    type filter hook input " == "    " + "type" + " " + "filter" + " " + "hook" + " " + "input" + " "
  {
  }

  lemma PriorityPieces()
    ensures "priority -10; policy accept;" == "priority" + " " + "-10;" + " " + "policy" + " " + "accept;"
  {
  }

  lemma RegroupHook(z: string, a: string, b: string, c: string, d: string)
    ensures z + a + " " + b + " " + c + " " + d + " " == z + (a + " " + (b + " " + (c + " " + d))) + " "
  {
  }

  lemma FourPadded(pad: string, a: string, b: string, c: string, d: string)
    requires Blank(pad, IsGap) && IsWord(a, IsGap) && IsWord(b, IsGap) && IsWord(c, IsGap) && IsWord(d, IsGap)
    ensures FieldsBy(pad + a + " " + b + " " + c + " " + d + " ", IsGap) == [a, b, c, d]
  {
    FourWords(a, b, c, d);
    FieldsOfLine(pad, [a, b, c, d], IsGap);
    FieldsSeam(pad + Concat([a, b, c, d], " "), " ", IsGap);
    BlankFront(" ", "", IsGap);
    Units(" ");
    RegroupHook(pad, a, b, c, d);
  }

  lemma HookFirst()
    ensures FieldsBy("    type filter hook input ", IsGap) == ["type", "filter", "hook", "input"]
  {
    ChainWords();
    FourPadded("    ", "type", "filter", "hook", "input");
    HookPieces();
  }

  lemma HookSecond()
    ensures FieldsBy("priority -10; policy accept;", IsGap) == ["priority", "-10;", "policy", "accept;"]
  {
    ChainWords();
    FourInLine("priority", "-10;", "policy", "accept;", IsGap);
    PriorityPieces();
  }

  predicate EndsInGap(s: string) {
    s != "" && IsGap(s[|s| - 1])
  }

  lemma HookEnds()
    ensures EndsInGap("    type filter hook input ")
  {
  }

  lemma HookWords()
    ensures INPUT_HOOK == ["type", "filter", "hook", "input"] + ["priority", "-10;", "policy", "accept;"]
  {
  }

  lemma Continued(a: string, b: string, x: Statement, y: Statement)
    requires EndsInGap(a) && FieldsBy(a, IsGap) == x && FieldsBy(b, IsGap) == y
    ensures FieldsBy(a + b, IsGap) == x + y
  {
    FieldsSeam(a, b, IsGap);
  }

  lemma HookLine()
    ensures FieldsBy(HOOK, IsGap) == INPUT_HOOK
  {
    HookFirst();
    HookSecond();
    HookEnds();
    HookWords();
    Continued("    type filter hook input ", "priority -10; policy accept;", ["type", "filter", "hook", "input"],
              ["priority", "-10;", "policy", "accept;"]);
  }

  lemma BraceLines()
    ensures FieldsBy("  chain input {", IsGap) == ["chain", "input", "{"]
    ensures FieldsBy("  }", IsGap) == ["}"] && FieldsBy("}", IsGap) == ["}"]
  {
    ChainWords();
    ThreeWords("  ", "chain", "input", "{", IsGap);
    assert "  chain input {" == "  " + ("chain" + " " + ("input" + " " + "{"));
    FlagsLine();
    OneWord("}", IsGap);
  }

  lemma ChainStatements()
    ensures Statements(CHAIN_LINES, IsGap) == [["chain", "input", "{"], INPUT_HOOK]
    ensures Statements(["  }", "}"], IsGap) == [["}"], ["}"]]
  {
    BraceLines();
    HookLine();
    CountsBy(["chain", "input", "{"]);
    CountsBy(INPUT_HOOK);
    CountsBy(["}"]);
    TwoStatements("  chain input {", HOOK,
                  ["chain", "input", "{"], INPUT_HOOK, IsGap);
    TwoStatements("  }", "}", ["}"], ["}"], IsGap);
  }

  function AllLines(t: Target, c: CIDRs): (r: seq<string>) {
    var table := TableOf(t, c);
    HeadLines(table.name, c, t.mode)
    + (AllSetLines(table.sets) + (CHAIN_LINES + (AllRuleLines(table.rules) + ["  }", "}"])))
  }

  lemma TextIsLines(t: Target, c: CIDRs)
    ensures RulesetText(t, c) == Lines(AllLines(t, c))
  {
    var table := TableOf(t, c);
    var rules := AllRuleLines(table.rules);
    HeadIsLines(table.name, c, t.mode);
    SetsAreLines(table.sets);
    ChainIsLines();
    RulesAreLines(table.rules);
    LinesConcat(rules, ["  }", "}"]);
    LinesConcat(CHAIN_LINES, rules + ["  }", "}"]);
    LinesConcat(AllSetLines(table.sets), CHAIN_LINES + (rules + ["  }", "}"]));
    LinesConcat(HeadLines(table.name, c, t.mode), AllSetLines(table.sets) + (CHAIN_LINES + (rules + ["  }", "}"])));
    FiveTexts(Head(table.name, c, t.mode), SetTexts(table.sets), CHAIN, RuleTexts(table.rules), END);
  }

  lemma FiveTexts(a: string, b: string, c: string, d: string, e: string)
    ensures a + b + c + d + e == a + (b + (c + (d + e)))
  {
  }

  lemma LinesAreStatements(t: Target, c: CIDRs)
    requires Writable(t, c)
    ensures var table := TableOf(t, c);
            var chain := [["chain", "input", "{"], INPUT_HOOK] + (AllRules(table.rules) + [["}"], ["}"]]);
            Statements(AllLines(t, c), IsGap) == HeadStatements(table.name) + (AllSets(table.sets) + chain)
  {
    var table := TableOf(t, c);
    var rules := AllRuleLines(table.rules);
    TableIsOk(t, c);
    HeadRead(table.name, c, t.mode);
    SetLinesAre(table.sets);
    ChainStatements();
    RuleLinesAre(table.rules);
    StatementsConcat(rules, ["  }", "}"], IsGap);
    StatementsConcat(CHAIN_LINES, rules + ["  }", "}"], IsGap);
    StatementsConcat(AllSetLines(table.sets), CHAIN_LINES + (rules + ["  }", "}"]), IsGap);
    StatementsConcat(HeadLines(table.name, c, t.mode),
                     AllSetLines(table.sets) + (CHAIN_LINES + (rules + ["  }", "}"])), IsGap);
  }

  lemma SetNamesAreWords()
    ensures IsWord("allowed_v4", IsGap) && IsWord("allowed_v6", IsGap) && OneLine("allowed_v4") && OneLine("allowed_v6")
  {
  }

  lemma TableIsOk(t: Target, c: CIDRs)
    requires Writable(t, c)
    ensures SetsOk(TableOf(t, c).sets) && forall i :: 0 <= i < |TableOf(t, c).rules| ==> RuleOk(TableOf(t, c).rules[i])
  {
    SetNamesAreWords();
  }

  lemma {:induction false} SetLinesOneLine(sets: seq<NetSet>)
    requires SetsOk(sets)
    ensures AllOneLine(AllSetLines(sets))
  {
    if sets != [] {
      SetLinesOneLine(sets[1..]);
      ConcatOneLine(sets[0].elements, ", ");
      OneSetOneLine(sets[0].name, if sets[0].family.V4? then "ipv4_addr" else "ipv6_addr",
                    Concat(sets[0].elements, ", "));
    }
  }

  lemma OneSetOneLine(name: string, ty: string, es: string)
    requires OneLine(name) && OneLine(ty) && OneLine(es)
    ensures AllOneLine(["  set " + name + " {", "    type " + ty, "    flags interval",
                        "    elements = { " + es + " }", "  }"])
  {
  }

  lemma {:induction false} RuleLinesOneLine(rules: seq<Rule>)
    requires forall i :: 0 <= i < |rules| ==> RuleOk(rules[i])
    ensures AllOneLine(AllRuleLines(rules))
  {
    if rules != [] {
      RuleLinesOneLine(rules[1..]);
      PortsAreWords(rules[0].ports);
      ConcatOneLine(Itoas(rules[0].ports), ", ");
      GuardOneLine(rules[0].family, rules[0].guard);
      ConcatOneLine(GuardWords(rules[0].family, rules[0].guard), " ");
      assert OneLine("    tcp dport { " + Concat(Itoas(rules[0].ports), ", "));
    }
  }

  lemma GuardOneLine(f: Family, g: Guard)
    requires g.Any? || OneLine(g.setName)
    ensures AllOneLine(GuardWords(f, g))
  {
  }

  lemma HeadOneLine(name: string, c: CIDRs, mode: string)
    requires OneLine(name) && OneLine(c.provider) && OneLine(mode)
    ensures AllOneLine(HeadLines(name, c, mode))
  {
    OneLinePieces();
    CommentOneLine();
    assert OneLine("# ip-watch managed ruleset - provider: " + c.provider);
    assert OneLine("# ip-watch managed ruleset - provider: " + c.provider + "  mode: ");
    assert OneLine("table inet " + name);
  }

  lemma CommentOneLine()
    ensures OneLine("# ip-watch managed ruleset - provider: ")
  {
  }

  lemma OneLinePieces()
    ensures OneLine("#!/usr/sbin/nft -f") && OneLine("  mode: ")
    ensures OneLine("add table inet ") && OneLine("delete table inet ") && OneLine("table inet ") && OneLine(" {")
  {
  }

  lemma AllOneLines(t: Target, c: CIDRs)
    requires Writable(t, c)
    ensures AllOneLine(AllLines(t, c))
  {
    var table := TableOf(t, c);
    TableIsOk(t, c);
    HeadOneLine(table.name, c, t.mode);
    SetLinesOneLine(table.sets);
    RuleLinesOneLine(table.rules);
    ChainOneLine();
    var a, b, d := HeadLines(table.name, c, t.mode), AllSetLines(table.sets), AllRuleLines(table.rules);
    OneLinesBoth(d, ["  }", "}"]);
    OneLinesBoth(CHAIN_LINES, d + ["  }", "}"]);
    OneLinesBoth(b, CHAIN_LINES + (d + ["  }", "}"]));
    OneLinesBoth(a, b + (CHAIN_LINES + (d + ["  }", "}"])));
  }

  lemma ChainOneLine()
    ensures AllOneLine(CHAIN_LINES) && AllOneLine(["  }", "}"])
  {
    assert OneLine("  chain input {") && OneLine(HOOK);
  }

  // ---------- what the text means ----------

  /** Reading the rendered ruleset gives back the table it was rendered from. */
  lemma RulesetReads(t: Target, c: CIDRs)
    requires Writable(t, c)
    ensures ReadRuleset(RulesetText(t, c)) == Some(TableOf(t, c))
  {
    var table := TableOf(t, c);
    var chain := [["chain", "input", "{"], INPUT_HOOK] + (AllRules(table.rules) + [["}"], ["}"]]);
    TextIsLines(t, c);
    AllOneLines(t, c);
    StatementsOfLines(AllLines(t, c), IsGap);
    LinesAreStatements(t, c);
    ChainRead(table.rules);
    BodyRead(table.sets, table.rules, chain);
    ScriptRead(table, AllSets(table.sets) + chain);
  }

  /** So the text that is loaded replaces the target's table by one that drops a packet exactly when the
      policy asks for it. */
  lemma TextDropsPolicy(t: Target, c: CIDRs, parse: Parser, p: Packet)
    requires Writable(t, c)
    ensures ReadRuleset(RulesetText(t, c)).Some?
    ensures var table := ReadRuleset(RulesetText(t, c)).value;
            && table.name == TableName(t.id)
            && (Drops(table, parse, p) <==> FilterOf(parse, t.mode != "deny", FirewallPorts(t), c).Drops(p))
  {
    RulesetReads(t, c);
    TableDropsPolicy(t, c, parse, p);
  }
}
