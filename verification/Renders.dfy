/** The files that the config engines include, and what the nginx one means. */
module Renders {
  import opened Text
  import opened Policy
  import opened Fetcher
  import opened Targets
  import HAProxy
  import Caddy

  // ---------- nginx ----------

  function Rule(keyword: string, net: string): (r: string) {
    keyword + " " + net + ";\n"
  }

  /** One line for each range. */
  function Rules(keyword: string, nets: seq<string>): (r: string) {
    if nets == [] then "" else Rules(keyword, nets[..|nets| - 1]) + Rule(keyword, nets[|nets| - 1])
  }

  lemma RulesNext(keyword: string, nets: seq<string>, i: nat)
    requires i < |nets|
    ensures Rules(keyword, nets[..i + 1]) == Rules(keyword, nets[..i]) + Rule(keyword, nets[i])
  {
    assert nets[..i + 1][..i] == nets[..i];
  }

  method WriteRules(keyword: string, nets: seq<string>) returns (b: string)
    ensures b == Rules(keyword, nets)
  {
    b := "";
    for i := 0 to |nets|
      invariant b == Rules(keyword, nets[..i])
    {
      RulesNext(keyword, nets, i);
      b := b + Rule(keyword, nets[i]);
    }
    assert nets[..|nets|] == nets;
  }

  function IncludeHead(t: Target, c: CIDRs): (r: string) {
    "# ip-watch managed file - do not edit by hand\n"
    + ("# provider: " + c.provider + "  mode: " + t.mode + "  ranges: " + Itoa(|c.v4| + |c.v6|) + "\n")
    + ("# source hash: " + c.hash + "\n\n")
  }

  function AccessText(allow: bool, c: CIDRs): (r: string) {
    var keyword := if allow then "allow" else "deny";
    Rules(keyword, c.v4) + Rules(keyword, c.v6) + if allow then Rule("deny", "all") else ""
  }

  function RealIPText(c: CIDRs): (r: string) {
    Rules("set_real_ip_from", c.v4) + Rules("set_real_ip_from", c.v6)
        + Rule("real_ip_header", HAProxy.RealIPHeader(c.provider))
  }

  function IncludeText(t: Target, c: CIDRs): (r: string) {
    IncludeHead(t, c) + AccessText(t.mode == "allow", c)
    + if t.config.realIP then "\n# real client IP recovery\n" + RealIPText(c) else ""
  }

  method RenderInclude(t: Target, c: CIDRs) returns (b: string)
    ensures b == IncludeText(t, c)
  {
    b := IncludeHead(t, c);
    var access := WriteAccess(t.mode == "allow", c);
    b := b + access;
    if t.config.realIP {
      var v4 := WriteRules("set_real_ip_from", c.v4);
      var v6 := WriteRules("set_real_ip_from", c.v6);
      b := b + ("\n# real client IP recovery\n" + (v4 + v6 + Rule("real_ip_header", HAProxy.RealIPHeader(c.provider))));
    }
  }

  method WriteAccess(allow: bool, c: CIDRs) returns (b: string)
    ensures b == AccessText(allow, c)
  {
    var keyword := "deny";
    if allow {
      keyword := "allow";
    }
    var v4 := WriteRules(keyword, c.v4);
    var v6 := WriteRules(keyword, c.v6);
    b := v4 + v6;
    if allow {
      b := b + Rule("deny", "all");
    }
  }

  // ---------- reading it ----------

  /** A directive without a block: its words. */
  type Statement = seq<string>

  predicate Gap(c: char) {
    c == ' ' || c == '\t' || c == '\r' || c == '\n'
  }

  function SkipLine(s: string): (r: string)
    ensures |r| <= |s| && (s != "" ==> |r| < |s|)
  {
    if s == "" then "" else if s[0] == '\n' then s[1..] else SkipLine(s[1..])
  }

  function Ended(words: Statement, word: string): (r: Statement) {
    if word == "" then words else words + [word]
  }

  function More(st: Statement, r: Option<seq<Statement>>): (r': Option<seq<Statement>>) {
    if r.None? then None else Some([st] + r.value)
  }

  /** nginx's reading of a file of plain directives, given the words of the directive at hand and the
      word at hand: words are separated by blanks and newlines, a '#' where a word could begin starts a
      comment, ';' ends a directive. None for what is unfinished, or not plain. */
  function Read(s: string, words: Statement, word: string): (r: Option<seq<Statement>>)
    decreases |s|
  {
    if s == "" then (if words == [] && word == "" then Some([]) else None)
    else if s[0] == '#' && word == "" then Read(SkipLine(s), words, "")
    else if Gap(s[0]) then Read(s[1..], Ended(words, word), "")
    else if s[0] == ';' then
      if words == [] && word == "" then None else More(Ended(words, word), Read(s[1..], [], ""))
    else if s[0] in "{}\"'\\" then None
    else Read(s[1..], words, word + [s[0]])
  }

  /** One word for the reader, wherever it stands. */
  predicate Word(w: string) {
    w != "" && forall i :: 0 <= i < |w| ==> !Gap(w[i]) && w[i] !in ";#{}\"'\\"
  }

  lemma {:induction false} ReadWord(w: string, rest: string, words: Statement, word: string)
    requires w == "" || Word(w)
    ensures Read(w + rest, words, word) == Read(rest, words, word + w)
  {
    if w == "" {
      Units(rest);
      Units(word);
    } else {
      assert (w + rest)[0] == w[0] && (w + rest)[1..] == w[1..] + rest;
      ReadWord(w[1..], rest, words, word + [w[0]]);
      assert word + [w[0]] + w[1..] == word + w;
    }
  }

  function After(sts: seq<Statement>, r: Option<seq<Statement>>): (r': Option<seq<Statement>>) {
    if r.None? then None else Some(sts + r.value)
  }

  /** Between directives, x is read as these directives, whatever follows. */
  ghost predicate Reads(x: string, sts: seq<Statement>) {
    forall rest: string {:trigger ReadsAt(x, sts, rest)} :: ReadsAt(x, sts, rest)
  }

  predicate ReadsAt(x: string, sts: seq<Statement>, rest: string) {
    Read(x + rest, [], "") == After(sts, Read(rest, [], ""))
  }

  lemma ReadsBoth(x: string, a: seq<Statement>, y: string, b: seq<Statement>)
    requires Reads(x, a) && Reads(y, b)
    ensures Reads(x + y, a + b)
  {
    forall rest: string ensures ReadsAt(x + y, a + b, rest) {
      assert ReadsAt(y, b, rest) && ReadsAt(x, a, y + rest);
      Assoc(x, y, rest);
      AfterAfter(a, b, Read(rest, [], ""));
    }
  }

  /** Nothing is read from x. */
  lemma ReadsBehind(x: string, y: string, sts: seq<Statement>)
    requires Reads(x, []) && Reads(y, sts)
    ensures Reads(x + y, sts)
  {
    ReadsBoth(x, [], y, sts);
    Units(sts);
  }

  lemma AfterAfter(a: seq<Statement>, b: seq<Statement>, r: Option<seq<Statement>>)
    ensures After(a, After(b, r)) == After(a + b, r)
  {
    if r.Some? {
      Assoc(a, b, r.value);
    }
  }

  lemma AfterNothing(r: Option<seq<Statement>>)
    ensures After([], r) == r
  {
    if r.Some? {
      Units(r.value);
    }
  }

  lemma ReadsNothing()
    ensures Reads("", [])
  {
    forall rest: string ensures ReadsAt("", [], rest) {
      Units(rest);
      AfterNothing(Read(rest, [], ""));
    }
  }

  lemma ReadsRule(keyword: string, net: string)
    requires Word(keyword) && Word(net)
    ensures Reads(Rule(keyword, net), [[keyword, net]])
  {
    forall rest: string ensures ReadsAt(Rule(keyword, net), [[keyword, net]], rest) {
      var end := ";\n" + rest;
      assert Rule(keyword, net) + rest == keyword + (" " + (net + end));
      ReadWord(keyword, " " + (net + end), [], "");
      Units(keyword);
      ReadGap(keyword, net + end);
      ReadWord(net, end, [keyword], "");
      Units(net);
      ReadEnd(keyword, net, rest);
    }
  }

  lemma ReadGap(keyword: string, rest: string)
    requires keyword != ""
    ensures Read(" " + rest, [], keyword) == Read(rest, [keyword], "")
  {
    assert (" " + rest)[1..] == rest;
    Units([keyword]);
  }

  lemma ReadEnd(keyword: string, net: string, rest: string)
    requires net != ""
    ensures Read(";\n" + rest, [keyword], net) == After([[keyword, net]], Read(rest, [], ""))
  {
    assert (";\n" + rest)[1..] == "\n" + rest && ("\n" + rest)[1..] == rest;
    assert [keyword] + [net] == [keyword, net];
    assert Read("\n" + rest, [], "") == Read(rest, [], "");
  }

  lemma {:induction false} SkipComment(line: string, rest: string)
    requires OneLine(line)
    ensures SkipLine(line + "\n" + rest) == rest
  {
    if line == "" {
      assert (line + "\n" + rest)[1..] == rest;
    } else {
      assert (line + "\n" + rest)[1..] == line[1..] + "\n" + rest;
      SkipComment(line[1..], rest);
    }
  }

  lemma ReadsComment(line: string)
    requires OneLine(line) && line != "" && line[0] == '#'
    ensures Reads(line + "\n", [])
  {
    forall rest: string ensures ReadsAt(line + "\n", [], rest) {
      SkipComment(line, rest);
      AfterNothing(Read(rest, [], ""));
    }
  }

  lemma ReadsBlank()
    ensures Reads("\n", [])
  {
    forall rest: string ensures ReadsAt("\n", [], rest) {
      assert ("\n" + rest)[1..] == rest;
      AfterNothing(Read(rest, [], ""));
    }
  }

  /** The directives that are meant. */
  function Each(keyword: string, nets: seq<string>): (r: seq<Statement>) {
    if nets == [] then [] else [[keyword, nets[0]]] + Each(keyword, nets[1..])
  }

  predicate AllWords(nets: seq<string>) {
    forall i :: 0 <= i < |nets| ==> Word(nets[i])
  }

  lemma {:induction false} RulesFirst(keyword: string, nets: seq<string>)
    requires nets != []
    ensures Rules(keyword, nets) == Rule(keyword, nets[0]) + Rules(keyword, nets[1..])
  {
    var n := |nets| - 1;
    if n == 0 {
      assert nets[..0] == [] && nets[1..] == [];
    } else {
      RulesFirst(keyword, nets[..n]);
      assert nets[..n][1..] == nets[1..][..n - 1];
      Assoc(Rule(keyword, nets[0]), Rules(keyword, nets[1..][..n - 1]), Rule(keyword, nets[n]));
    }
  }

  lemma {:induction false} ReadsRules(keyword: string, nets: seq<string>)
    requires Word(keyword) && AllWords(nets)
    ensures Reads(Rules(keyword, nets), Each(keyword, nets))
  {
    if nets == [] {
      ReadsNothing();
    } else {
      RulesFirst(keyword, nets);
      ReadsRule(keyword, nets[0]);
      ReadsRules(keyword, nets[1..]);
      ReadsBoth(Rule(keyword, nets[0]), [[keyword, nets[0]]], Rules(keyword, nets[1..]), Each(keyword, nets[1..]));
    }
  }

  function AccessStatements(allow: bool, c: CIDRs): (r: seq<Statement>) {
    Each(if allow then "allow" else "deny", c.v4) + Each(if allow then "allow" else "deny", c.v6)
    + if allow then [["deny", "all"]] else []
  }

  function RealIPStatements(c: CIDRs): (r: seq<Statement>) {
    Each("set_real_ip_from", c.v4) + Each("set_real_ip_from", c.v6)
        + [["real_ip_header", HAProxy.RealIPHeader(c.provider)]]
  }

  /** What is written must not break the lines and words. */
  predicate Writable(t: Target, c: CIDRs) {
    OneLine(c.provider) && OneLine(t.mode) && OneLine(c.hash) && AllWords(c.v4) && AllWords(c.v6)
  }

  lemma ReadsFamilies(keyword: string, c: CIDRs)
    requires Word(keyword) && AllWords(c.v4) && AllWords(c.v6)
    ensures Reads(Rules(keyword, c.v4) + Rules(keyword, c.v6), Each(keyword, c.v4) + Each(keyword, c.v6))
  {
    ReadsRules(keyword, c.v4);
    ReadsRules(keyword, c.v6);
    ReadsBoth(Rules(keyword, c.v4), Each(keyword, c.v4), Rules(keyword, c.v6), Each(keyword, c.v6));
  }

  lemma ReadsAccess(allow: bool, c: CIDRs)
    requires AllWords(c.v4) && AllWords(c.v6)
    ensures Reads(AccessText(allow, c), AccessStatements(allow, c))
  {
    var keyword := if allow then "allow" else "deny";
    ReadsFamilies(keyword, c);
    if allow {
      ReadsRule("deny", "all");
    } else {
      ReadsNothing();
    }
    ReadsBoth(Rules(keyword, c.v4) + Rules(keyword, c.v6), Each(keyword, c.v4) + Each(keyword, c.v6),
              if allow then Rule("deny", "all") else "", if allow then [["deny", "all"]] else []);
  }

  lemma HeaderIsWord(provider: string)
    ensures Word(HAProxy.RealIPHeader(provider))
  {
    var h := HAProxy.RealIPHeader(provider);
    if h == "CF-Connecting-IP" {
      assert Word("CF-Connecting-IP");
    } else {
      assert Word("X-Forwarded-For");
    }
  }

  lemma ReadsRealIP(c: CIDRs)
    requires AllWords(c.v4) && AllWords(c.v6)
    ensures Reads(RealIPText(c), RealIPStatements(c))
  {
    var keyword, header := "set_real_ip_from", HAProxy.RealIPHeader(c.provider);
    ReadsFamilies(keyword, c);
    HeaderIsWord(c.provider);
    ReadsRule("real_ip_header", header);
    ReadsBoth(Rules(keyword, c.v4) + Rules(keyword, c.v6), Each(keyword, c.v4) + Each(keyword, c.v6),
              Rule("real_ip_header", header), [["real_ip_header", header]]);
  }

  lemma OneLineBoth(a: string, b: string)
    requires OneLine(a) && OneLine(b)
    ensures OneLine(a + b)
  {
  }

  lemma CommentLines(t: Target, c: CIDRs)
    requires OneLine(c.provider) && OneLine(t.mode) && OneLine(c.hash)
    ensures OneLine("# provider: " + c.provider + "  mode: " + t.mode + "  ranges: " + Itoa(|c.v4| + |c.v6|))
    ensures OneLine("# source hash: " + c.hash)
    ensures ("# provider: " + c.provider + "  mode: " + t.mode + "  ranges: " + Itoa(|c.v4| + |c.v6|))[0] == '#'
    ensures ("# source hash: " + c.hash)[0] == '#'
  {
    ItoaAtoi(|c.v4| + |c.v6|);
    OneLineBoth("# provider: ", c.provider);
    OneLineBoth("# provider: " + c.provider, "  mode: ");
    OneLineBoth("# provider: " + c.provider + "  mode: ", t.mode);
    OneLineBoth("# provider: " + c.provider + "  mode: " + t.mode, "  ranges: ");
    OneLineBoth("# provider: " + c.provider + "  mode: " + t.mode + "  ranges: ", Itoa(|c.v4| + |c.v6|));
    OneLineBoth("# source hash: ", c.hash);
  }

  lemma ReadsHead(t: Target, c: CIDRs)
    requires OneLine(c.provider) && OneLine(t.mode) && OneLine(c.hash)
    ensures Reads(IncludeHead(t, c), [])
  {
    var l1 := "# ip-watch managed file - do not edit by hand";
    var l2 := "# provider: " + c.provider + "  mode: " + t.mode + "  ranges: " + Itoa(|c.v4| + |c.v6|);
    var l3 := "# source hash: " + c.hash;
    CommentLines(t, c);
    assert l1[0] == '#' && OneLine(l1);
    ReadsComment(l1);
    ReadsComment(l2);
    ReadsComment(l3);
    ReadsBlank();
    HeadPieces(l1 + "\n", l2 + "\n", l3 + "\n");
    HeadText(l3);
  }

  lemma HeadText(l: string)
    ensures "# ip-watch managed file - do not edit by hand" + "\n" == "# ip-watch managed file - do not edit by hand\n"
    ensures l + "\n" + "\n" == l + "\n\n"
  {
  }

  lemma HeadPieces(l1: string, l2: string, l3: string)
    requires Reads(l1, []) && Reads(l2, []) && Reads(l3, []) && Reads("\n", [])
    ensures Reads(l1 + l2 + (l3 + "\n"), [])
  {
    ReadsBehind(l3, "\n", []);
    ReadsBehind(l1, l2, []);
    ReadsBehind(l1 + l2, l3 + "\n", []);
  }

  lemma NoteText()
    ensures "\n" + ("# real client IP recovery" + "\n") == "\n# real client IP recovery\n"
  {
  }

  lemma ReadsTail(t: Target, c: CIDRs)
    requires Writable(t, c)
    ensures Reads(if t.config.realIP then "\n# real client IP recovery\n" + RealIPText(c) else "",
                  if t.config.realIP then RealIPStatements(c) else [])
  {
    if t.config.realIP {
      var note := "# real client IP recovery";
      ReadsBlank();
      ReadsComment(note);
      ReadsRealIP(c);
      ReadsBehind("\n", note + "\n", []);
      NoteText();
      ReadsBehind("\n# real client IP recovery\n", RealIPText(c), RealIPStatements(c));
    } else {
      ReadsNothing();
    }
  }

  /** Reading what is written gives back the directives that were meant, and no others. */
  lemma IncludeReads(t: Target, c: CIDRs)
    requires Writable(t, c)
    ensures Read(IncludeText(t, c), [], "")
         == Some(AccessStatements(t.mode == "allow", c) + if t.config.realIP then RealIPStatements(c) else [])
  {
    var access := AccessText(t.mode == "allow", c);
    var sts, more := AccessStatements(t.mode == "allow", c), if t.config.realIP then RealIPStatements(c) else [];
    var tail := if t.config.realIP then "\n# real client IP recovery\n" + RealIPText(c) else "";
    ReadsHead(t, c);
    ReadsAccess(t.mode == "allow", c);
    ReadsBehind(IncludeHead(t, c), access, sts);
    ReadsTail(t, c);
    ReadsBoth(IncludeHead(t, c) + access, sts, tail, more);
    ReadsToEnd(IncludeHead(t, c) + access + tail, sts + more);
  }

  lemma ReadsToEnd(x: string, sts: seq<Statement>)
    requires Reads(x, sts)
    ensures Read(x, [], "") == Some(sts)
  {
    assert ReadsAt(x, sts, "");
    Units(x);
    Units(sts);
  }

  // ---------- what it means ----------

  /** A rule of nginx's access module. */
  datatype Directive = Allow(who: string) | Deny(who: string)

  /** The access rules among the directives. */
  function AccessRules(sts: seq<Statement>): (r: seq<Directive>) {
    if sts == [] then []
    else
      (if |sts[0]| == 2 && sts[0][0] == "allow" then [Allow(sts[0][1])]
       else if |sts[0]| == 2 && sts[0][0] == "deny" then [Deny(sts[0][1])] else [])
      + AccessRules(sts[1..])
  }

  /** Whether a rule applies to an address: its range contains it. */
  predicate Applies(d: Directive, parse: Parser, a: Addr) {
    d.who == "all" || (parse(d.who).Some? && Contains(parse(d.who).value, a))
  }

  /** nginx's access module: the first rule that applies decides, and nothing refused is permitted. */
  predicate Permitted(ds: seq<Directive>, parse: Parser, a: Addr) {
    if ds == [] then true
    else if Applies(ds[0], parse, a) then ds[0].Allow?
    else Permitted(ds[1..], parse, a)
  }

  function RulesFor(allow: bool, nets: seq<string>): (r: seq<Directive>) {
    if nets == [] then [] else [if allow then Allow(nets[0]) else Deny(nets[0])] + RulesFor(allow, nets[1..])
  }

  lemma {:induction false} RulesOfEach(allow: bool, nets: seq<string>)
    ensures AccessRules(Each(if allow then "allow" else "deny", nets)) == RulesFor(allow, nets)
  {
    if nets != [] {
      RulesOfEach(allow, nets[1..]);
    }
  }

  lemma {:induction false} NoRules(keyword: string, nets: seq<string>)
    requires keyword != "allow" && keyword != "deny"
    ensures AccessRules(Each(keyword, nets)) == []
  {
    if nets != [] {
      NoRules(keyword, nets[1..]);
    }
  }

  lemma {:induction false} RulesOfConcat(a: seq<Statement>, b: seq<Statement>)
    ensures AccessRules(a + b) == AccessRules(a) + AccessRules(b)
  {
    if a == [] {
      Units(b);
    } else {
      assert (a + b)[0] == a[0] && (a + b)[1..] == a[1..] + b;
      RulesOfConcat(a[1..], b);
    }
  }

  lemma {:induction false} RulesForConcat(allow: bool, a: seq<string>, b: seq<string>)
    ensures RulesFor(allow, a + b) == RulesFor(allow, a) + RulesFor(allow, b)
  {
    if a == [] {
      Units(b);
    } else {
      assert (a + b)[0] == a[0] && (a + b)[1..] == a[1..] + b;
      RulesForConcat(allow, a[1..], b);
    }
  }

  /** The access rules that the text has, whatever else it sets. */
  lemma IncludeRules(t: Target, c: CIDRs)
    ensures AccessRules(AccessStatements(t.mode == "allow", c) + if t.config.realIP then RealIPStatements(c) else [])
         == RulesFor(t.mode == "allow", c.v4 + c.v6) + if t.mode == "allow" then [Deny("all")] else []
  {
    var allow := t.mode == "allow";
    var keyword, last := if allow then "allow" else "deny", if allow then [["deny", "all"]] else [];
    RulesOfConcat(AccessStatements(allow, c), if t.config.realIP then RealIPStatements(c) else []);
    RulesOfConcat(Each(keyword, c.v4) + Each(keyword, c.v6), last);
    RulesOfConcat(Each(keyword, c.v4), Each(keyword, c.v6));
    RulesOfEach(allow, c.v4);
    RulesOfEach(allow, c.v6);
    RulesForConcat(allow, c.v4, c.v6);
    NoRealIPRules(c);
    assert AccessRules(last) == if allow then [Deny("all")] else [];
  }

  lemma NoRealIPRules(c: CIDRs)
    ensures AccessRules(RealIPStatements(c)) == []
  {
    var keyword, header := "set_real_ip_from", [["real_ip_header", HAProxy.RealIPHeader(c.provider)]];
    RulesOfConcat(Each(keyword, c.v4) + Each(keyword, c.v6), header);
    RulesOfConcat(Each(keyword, c.v4), Each(keyword, c.v6));
    NoRules(keyword, c.v4);
    NoRules(keyword, c.v6);
    assert AccessRules(header) == [];
  }

  lemma {:induction false} AccessPermits(allow: bool, nets: seq<string>, parse: Parser, a: Addr)
    requires "all" !in nets
    ensures var ds := RulesFor(allow, nets) + if allow then [Deny("all")] else [];
            Permitted(ds, parse, a) <==> (allow <==> Covered(NetsOf(parse, nets), a))
  {
    var last := if allow then [Deny("all")] else [];
    if nets == [] {
      Units(last);
    } else {
      AccessPermits(allow, nets[1..], parse, a);
      assert RulesFor(allow, nets) + last == [if allow then Allow(nets[0]) else Deny(nets[0])]
             + (RulesFor(allow, nets[1..]) + last);
      CoveredConcat(if parse(nets[0]).Some? then [parse(nets[0]).value] else [], NetsOf(parse, nets[1..]), a);
      OneCovered(parse, nets[0], a);
    }
  }

  lemma OneCovered(parse: Parser, net: string, a: Addr)
    ensures Covered(if parse(net).Some? then [parse(net).value] else [], a)
            <==> parse(net).Some? && Contains(parse(net).value, a)
  {
    if parse(net).Some? {
      assert [parse(net).value][0] == parse(net).value;
    }
  }

  lemma CoveredConcat(x: seq<Cidr>, y: seq<Cidr>, a: Addr)
    ensures Covered(x + y, a) <==> Covered(x, a) || Covered(y, a)
  {
    var z := x + y;
    if Covered(x, a) {
      var i :| 0 <= i < |x| && Contains(x[i], a);
      assert z[i] == x[i];
    }
    if Covered(y, a) {
      var i :| 0 <= i < |y| && Contains(y[i], a);
      assert z[|x| + i] == y[i];
    }
  }

  /** What nginx makes of the text that is written, read from its first character to its last: in allow mode
      exactly the covered addresses are permitted, in deny mode exactly the others. */
  lemma IncludePermits(t: Target, c: CIDRs, parse: Parser, a: Addr)
    requires Writable(t, c) && "all" !in c.v4 + c.v6
    ensures Read(IncludeText(t, c), [], "").Some?
    ensures Permitted(AccessRules(Read(IncludeText(t, c), [], "").value), parse, a)
            <==> (t.mode == "allow" <==> Covered(NetsOf(parse, c.v4 + c.v6), a))
  {
    IncludeReads(t, c);
    IncludeRules(t, c);
    AccessPermits(t.mode == "allow", c.v4 + c.v6, parse, a);
  }

  // ---------- the other engines ----------

  function Banner(what: string, t: Target, c: CIDRs): (r: string) {
    "# ip-watch managed " + what + " - do not edit by hand\n"
    + ("# provider: " + c.provider + "  mode: " + t.mode + "\n")
  }

  function HAProxyText(t: Target, c: CIDRs): (r: string) {
    Banner("acl", t, c) + Lines(c.v4 + c.v6)
  }

  function CaddyText(t: Target, c: CIDRs): (r: string) {
    var matcher := "@ipwatch_" + HAProxy.Sanitize(t.id);
    Banner("snippet", t, c)
    + (matcher + (if t.mode == "allow" then " not remote_ip " else " remote_ip ") + Caddy.Words(c.v4 + c.v6) + "\n")
    + ("abort " + matcher + "\n")
  }

  function ProxyLines(nets: seq<string>): (r: string) {
    if nets == [] then "" else "RemoteIPTrustedProxy " + nets[0] + "\n" + ProxyLines(nets[1..])
  }

  function ApacheText(t: Target, c: CIDRs): (r: string) {
    var nets := Caddy.Words(c.v4 + c.v6);
    Banner("file", t, c)
    + (if t.config.realIP then "RemoteIPHeader " + HAProxy.RealIPHeader(c.provider) + "\n" + ProxyLines(c.v4 + c.v6)
       else "")
    + "<Location />\n"
    + (if t.mode == "allow" then "    Require ip " + nets + "\n"
       else "    <RequireAll>\n" + "        Require all granted\n" + ("        Require not ip " + nets + "\n")
            + "    </RequireAll>\n")
    + "</Location>\n"
  }
}
