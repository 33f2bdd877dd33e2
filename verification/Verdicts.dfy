/** What HAProxy, Caddy and Apache make of the texts that are written for them: which addresses get through. */
module Verdicts {
  import opened Text
  import opened Policy
  import opened Fetcher
  import opened Targets
  import opened Lexing
  import HAProxy
  import Caddy
  import Renders

  predicate IsBlank(c: char) {
    c == ' ' || c == '\t'
  }

  /** One word of a file, on its line, that begins no comment. */
  predicate IsName(w: string) {
    IsWord(w, IsBlank) && OneLine(w) && w[0] != '#'
  }

  predicate AllNames(ws: seq<string>) {
    forall i :: 0 <= i < |ws| ==> IsName(ws[i])
  }

  /** An address passes: inside the ranges in allow mode, outside in any other. */
  predicate LetIn(allow: bool, nets: seq<string>, parse: Parser, a: Addr) {
    allow <==> Covered(NetsOf(parse, nets), a)
  }

  // ---------- HAProxy ----------

  /** The patterns of an acl's file: its lines, comments and empty lines left out. */
  function Patterns(sts: seq<Statement>): (r: seq<string>) {
    if sts == [] then [] else [Concat(sts[0], " ")] + Patterns(sts[1..])
  }

  function PatternsOf(text: string): (r: seq<string>) {
    Patterns(StatementsOf(text, IsBlank))
  }

  /** The file an acl looks in, and whether a source that is found there is denied, or one that is not. */
  datatype Denial = Denial(file: string, found: bool)

  /** An acl on the source address, then a deny rule on it or on its contrary; other lines do not deny. */
  function ReadDenial(lines: seq<string>): (r: Option<Denial>) {
    var sts := Statements(lines, IsBlank);
    if |sts| < 2 || |sts[0]| != 5 || sts[0][0] != "acl" || sts[0][2..4] != ["src", "-f"] then None
    else if sts[1] == ["http-request", "deny", "if", sts[0][1]] then Some(Denial(sts[0][4], true))
    else if sts[1] == ["http-request", "deny", "if", "!" + sts[0][1]] then Some(Denial(sts[0][4], false))
    else None
  }

  /** The request is denied, with this text in the acl's file. */
  predicate Denied(d: Denial, text: string, parse: Parser, a: Addr) {
    d.found <==> Covered(NetsOf(parse, PatternsOf(text)), a)
  }

  // ---------- Caddy ----------

  /** The ranges of a remote_ip matcher whose requests are aborted, and whether it is negated. */
  datatype Abort = Abort(negated: bool, nets: seq<string>)

  function AbortIn(sts: seq<Statement>): (r: Option<Abort>) {
    if |sts| != 2 || |sts[0]| < 2 || !HasPrefix(sts[0][0], "@") || sts[1] != ["abort", sts[0][0]] then None
    else if sts[0][1] == "remote_ip" then Some(Abort(false, sts[0][2..]))
    else if |sts[0]| >= 3 && sts[0][1..3] == ["not", "remote_ip"] then Some(Abort(true, sts[0][3..]))
    else None
  }

  function ReadAbort(text: string): (r: Option<Abort>) {
    AbortIn(StatementsOf(text, IsBlank))
  }

  predicate Aborted(b: Abort, parse: Parser, a: Addr) {
    b.negated <==> !Covered(NetsOf(parse, b.nets), a)
  }

  // ---------- Apache ----------

  /** Who is granted: these ranges, or everybody outside of them. */
  datatype Grant = Inside(nets: seq<string>) | Outside(nets: seq<string>)

  predicate SetsUpRemoteIP(st: Statement) {
    st != [] && (st[0] == "RemoteIPHeader" || st[0] == "RemoteIPTrustedProxy")
  }

  /** Without the lines that only recover the client's address. */
  function WithoutRemoteIP(sts: seq<Statement>): (r: seq<Statement>) {
    if sts == [] then [] else (if SetsUpRemoteIP(sts[0]) then [] else [sts[0]]) + WithoutRemoteIP(sts[1..])
  }

  /** One location, everything, with a requirement; a `Require ip` names at least one range. */
  function GrantIn(sts: seq<Statement>): (r: Option<Grant>) {
    if |sts| == 3 && sts[0] == ["<Location", "/>"] && sts[2] == ["</Location>"]
       && |sts[1]| > 2 && sts[1][..2] == ["Require", "ip"] then Some(Inside(sts[1][2..]))
    else if |sts| == 6 && sts[0] == ["<Location", "/>"] && sts[1] == ["<RequireAll>"]
            && sts[2] == ["Require", "all", "granted"] && sts[4] == ["</RequireAll>"] && sts[5] == ["</Location>"]
            && |sts[3]| > 3 && sts[3][..3] == ["Require", "not", "ip"] then Some(Outside(sts[3][3..]))
    else None
  }

  function ReadGrant(text: string): (r: Option<Grant>) {
    GrantIn(WithoutRemoteIP(StatementsOf(text, IsBlank)))
  }

  predicate Granted(g: Grant, parse: Parser, a: Addr) {
    match g
    case Inside(nets) => Covered(NetsOf(parse, nets), a)
    case Outside(nets) => !Covered(NetsOf(parse, nets), a)
  }

  // ---------- the banner ----------

  lemma BannerIsLines(what: string, t: Target, c: CIDRs)
    ensures Renders.Banner(what, t, c) == Lines(BannerLines(what, t, c))
  {
    TwoLines("# ip-watch managed " + what + " - do not edit by hand",
             "# provider: " + c.provider + "  mode: " + t.mode);
    assert " - do not edit by hand\n" == " - do not edit by hand" + "\n";
  }

  function BannerLines(what: string, t: Target, c: CIDRs): (r: seq<string>) {
    ["# ip-watch managed " + what + " - do not edit by hand", "# provider: " + c.provider + "  mode: " + t.mode]
  }

  lemma BannerSkipped(what: string, t: Target, c: CIDRs, ls: seq<string>)
    ensures Statements(BannerLines(what, t, c) + ls, IsBlank) == Statements(ls, IsBlank)
  {
    var l1 := "# ip-watch managed " + what + " - do not edit by hand";
    var l2 := "# provider: " + c.provider + "  mode: " + t.mode;
    assert l1[0] == '#' && l2[0] == '#';
    CommentSkipped(l2, ls, IsBlank);
    CommentSkipped(l1, [l2] + ls, IsBlank);
    assert BannerLines(what, t, c) + ls == [l1] + ([l2] + ls);
  }

  lemma BannerOneLine(what: string, t: Target, c: CIDRs)
    requires OneLine(what) && OneLine(c.provider) && OneLine(t.mode)
    ensures AllOneLine(BannerLines(what, t, c))
  {
    BannerPieces();
    assert OneLine("# ip-watch managed " + what) && OneLine("# provider: " + c.provider + "  mode: ");
  }

  lemma BannerPieces()
    ensures OneLine("# ip-watch managed ") && OneLine(" - do not edit by hand")
    ensures OneLine("# provider: ") && OneLine("  mode: ")
  {
  }

  /** The statements of a written file: those of the lines behind the banner. */
  lemma BehindBanner(what: string, t: Target, c: CIDRs, ls: seq<string>)
    requires OneLine(what) && OneLine(c.provider) && OneLine(t.mode) && AllOneLine(ls)
    ensures StatementsOf(Renders.Banner(what, t, c) + Lines(ls), IsBlank) == Statements(ls, IsBlank)
  {
    BannerIsLines(what, t, c);
    BannerOneLine(what, t, c);
    LinesConcat(BannerLines(what, t, c), ls);
    OneLinesBoth(BannerLines(what, t, c), ls);
    StatementsOfLines(BannerLines(what, t, c) + ls, IsBlank);
    BannerSkipped(what, t, c, ls);
  }

  // ---------- what HAProxy reads ----------

  lemma {:induction false} NamesRead(nets: seq<string>)
    requires AllNames(nets)
    ensures Patterns(Statements(nets, IsBlank)) == nets
  {
    if nets != [] {
      NamesRead(nets[1..]);
      OneWord(nets[0], IsBlank);
      CountsBy([nets[0]]);
      assert nets == [nets[0]] + nets[1..];
      StatementsCons(nets[0], nets[1..], [nets[0]], IsBlank);
      var rest := Statements(nets[1..], IsBlank);
      assert ([[nets[0]]] + rest)[1..] == rest;
    }
  }

  /** The acl's file holds the ranges. */
  lemma PatternsRead(t: Target, c: CIDRs)
    requires OneLine(c.provider) && OneLine(t.mode) && AllNames(c.v4 + c.v6)
    ensures PatternsOf(Renders.HAProxyText(t, c)) == c.v4 + c.v6
  {
    assert OneLine("acl");
    BehindBanner("acl", t, c, c.v4 + c.v6);
    NamesRead(c.v4 + c.v6);
  }

  lemma AclPieces()
    ensures "acl " == "acl" + " " && " src -f " == " " + "src" + " " + "-f" + " "
    ensures IsWord("acl", IsBlank) && IsWord("src", IsBlank) && IsWord("-f", IsBlank)
  {
  }

  lemma AclLineRead(acl: string, path: string)
    requires IsWord(acl, IsBlank) && IsWord(path, IsBlank)
    ensures FieldsBy(HAProxy.AclLine(acl, path), IsBlank) == ["acl", acl, "src", "-f", path]
  {
    AclPieces();
    OneWord("acl", IsBlank);
    WordBehindBlank("acl", acl, IsBlank);
    WordBehindBlank("acl" + " " + acl, "src", IsBlank);
    WordBehindBlank("acl" + " " + acl + " " + "src", "-f", IsBlank);
    WordBehindBlank("acl" + " " + acl + " " + "src" + " " + "-f", path, IsBlank);
    AclJoined("acl", acl, "src", "-f", path);
  }

  lemma AclJoined(a: string, b: string, c: string, d: string, e: string)
    ensures a + " " + b + (" " + c + " " + d + " ") + e == a + " " + b + " " + c + " " + d + " " + e
  {
  }

  lemma DenyPieces()
    ensures "http-request deny if " == "http-request" + " " + "deny" + " " + "if" + " "
    ensures IsWord("http-request", IsBlank) && IsWord("deny", IsBlank) && IsWord("if", IsBlank)
  {
  }

  lemma DenyLineRead(acl: string, mode: string)
    requires IsWord(acl, IsBlank)
    ensures FieldsBy(HAProxy.DenyLine(acl, mode), IsBlank)
         == ["http-request", "deny", "if", if mode == "deny" then acl else "!" + acl]
  {
    var cond := if mode == "deny" then acl else "!" + acl;
    DenyPieces();
    assert IsWord(cond, IsBlank);
    FourInLine("http-request", "deny", "if", cond, IsBlank);
  }

  /** The two lines that count are read as the denial that is meant. */
  lemma PayloadRead(id: string, mode: string, realIP: bool, provider: Option<string>, path: string)
    requires IsWord("ipwatch_" + HAProxy.Sanitize(id), IsBlank) && IsWord(path, IsBlank)
    ensures ReadDenial(HAProxy.Payload(id, mode, realIP, provider, path)) == Some(Denial(path, mode == "deny"))
  {
    var acl := "ipwatch_" + HAProxy.Sanitize(id);
    var lines := HAProxy.Payload(id, mode, realIP, provider, path);
    var s1 := ["acl", acl, "src", "-f", path];
    var s2 := ["http-request", "deny", "if", if mode == "deny" then acl else "!" + acl];
    AclLineRead(acl, path);
    DenyLineRead(acl, mode);
    CountsBy(s1);
    CountsBy(s2);
    FirstTwo(lines, s1, s2);
    assert s1[2..4] == ["src", "-f"] && |"!" + acl| > |acl|;
  }

  lemma FirstTwo(lines: seq<string>, s1: Statement, s2: Statement)
    requires |lines| >= 2 && FieldsBy(lines[0], IsBlank) == s1 && FieldsBy(lines[1], IsBlank) == s2
    requires Counts(s1) && Counts(s2)
    ensures var sts := Statements(lines, IsBlank); |sts| >= 2 && sts[0] == s1 && sts[1] == s2
  {
    assert lines == [lines[0]] + ([lines[1]] + lines[2..]);
    StatementsCons(lines[1], lines[2..], s2, IsBlank);
    StatementsCons(lines[0], [lines[1]] + lines[2..], s1, IsBlank);
  }

  /** HAProxy: the lines deny, looking in the managed file, exactly the addresses that are not wanted. */
  lemma HAProxyDenies(t: Target, c: CIDRs, realIP: bool, path: string, parse: Parser, a: Addr)
    requires IsWord("ipwatch_" + HAProxy.Sanitize(t.id), IsBlank) && IsWord(path, IsBlank)
    requires OneLine(c.provider) && OneLine(t.mode) && AllNames(c.v4 + c.v6)
    ensures var d := ReadDenial(HAProxy.Payload(t.id, t.mode, realIP, Some(c.provider), path));
            && d.Some? && d.value.file == path
            && (Denied(d.value, Renders.HAProxyText(t, c), parse, a)
                <==> !LetIn(t.mode != "deny", c.v4 + c.v6, parse, a))
  {
    PayloadRead(t.id, t.mode, realIP, Some(c.provider), path);
    PatternsRead(t, c);
  }

  // ---------- what Caddy reads ----------

  lemma {:induction false} WordsAreConcat(ws: seq<string>)
    ensures Caddy.Words(ws) == Concat(ws, " ")
  {
    if |ws| > 1 {
      WordsAreConcat(ws[1..]);
    }
  }

  /** Words, then a list of words behind a blank. */
  lemma ListBehind(s: string, nets: seq<string>)
    requires AllNames(nets)
    ensures FieldsBy(s + " " + Caddy.Words(nets), IsBlank) == FieldsBy(s, IsBlank) + nets
  {
    WordsAreConcat(nets);
    Assoc(s, " ", Concat(nets, " "));
    FieldsSeam(s, " " + Concat(nets, " "), IsBlank);
    FieldsOfLine(" ", nets, IsBlank);
  }

  lemma TrustPieces()
    ensures "trusted_proxies static " == "trusted_proxies" + " " + "static" + " "
    ensures IsWord("trusted_proxies", IsBlank) && IsWord("static", IsBlank)
  {
  }

  /** real_ip: the global option of Caddy names exactly these ranges. */
  lemma TrustsExactly(nets: seq<string>)
    requires AllNames(nets)
    ensures FieldsBy(Caddy.TrustedProxies(nets), IsBlank) == ["trusted_proxies", "static"] + nets
  {
    TrustPieces();
    NamedList("trusted_proxies", "static", nets);
  }

  lemma NamedList(a: string, b: string, nets: seq<string>)
    requires IsWord(a, IsBlank) && IsWord(b, IsBlank) && AllNames(nets)
    ensures FieldsBy(a + " " + b + " " + Caddy.Words(nets), IsBlank) == [a, b] + nets
  {
    OneWord(a, IsBlank);
    WordBehindBlank(a, b, IsBlank);
    ListBehind(a + " " + b, nets);
  }

  lemma SnippetPieces()
    ensures " not remote_ip " == " " + "not" + " " + "remote_ip" + " " && " remote_ip " == " " + "remote_ip" + " "
    ensures "abort " == "abort" + " "
    ensures IsWord("not", IsBlank) && IsWord("remote_ip", IsBlank) && IsWord("abort", IsBlank)
  {
  }

  lemma NotMatcherRead(matcher: string, nets: seq<string>)
    requires IsWord(matcher, IsBlank) && AllNames(nets)
    ensures FieldsBy(matcher + " not remote_ip " + Caddy.Words(nets), IsBlank) == [matcher, "not", "remote_ip"] + nets
  {
    SnippetPieces();
    OneWord(matcher, IsBlank);
    WordBehindBlank(matcher, "not", IsBlank);
    WordBehindBlank(matcher + " " + "not", "remote_ip", IsBlank);
    ListBehind(matcher + " " + "not" + " " + "remote_ip", nets);
    MatcherJoined(matcher, "not", "remote_ip", Caddy.Words(nets));
  }

  lemma MatcherRead(matcher: string, nets: seq<string>)
    requires IsWord(matcher, IsBlank) && AllNames(nets)
    ensures FieldsBy(matcher + " remote_ip " + Caddy.Words(nets), IsBlank) == [matcher, "remote_ip"] + nets
  {
    SnippetPieces();
    OneWord(matcher, IsBlank);
    WordBehindBlank(matcher, "remote_ip", IsBlank);
    ListBehind(matcher + " " + "remote_ip", nets);
    MatcherJoined(matcher, "", "remote_ip", Caddy.Words(nets));
  }

  lemma AbortRead(matcher: string)
    requires IsWord(matcher, IsBlank)
    ensures FieldsBy("abort " + matcher, IsBlank) == ["abort", matcher]
  {
    SnippetPieces();
    OneWord("abort", IsBlank);
    WordBehindBlank("abort", matcher, IsBlank);
  }

  lemma MatcherJoined(m: string, a: string, b: string, ws: string)
    ensures m + (" " + a + " " + b + " ") + ws == m + " " + a + " " + b + " " + ws
    ensures m + (" " + b + " ") + ws == m + " " + b + " " + ws
  {
  }

  lemma SnippetIsLines(t: Target, c: CIDRs)
    ensures Renders.CaddyText(t, c) == Renders.Banner("snippet", t, c) + Lines(SnippetLines(t, c))
  {
    var matcher := "@ipwatch_" + HAProxy.Sanitize(t.id);
    var l1 := matcher + (if t.mode == "allow" then " not remote_ip " else " remote_ip ") + Caddy.Words(c.v4 + c.v6);
    TwoLines(l1, "abort " + matcher);
    Assoc(Renders.Banner("snippet", t, c), l1 + "\n", "abort " + matcher + "\n");
  }

  function SnippetLines(t: Target, c: CIDRs): (r: seq<string>) {
    var matcher := "@ipwatch_" + HAProxy.Sanitize(t.id);
    [matcher + (if t.mode == "allow" then " not remote_ip " else " remote_ip ") + Caddy.Words(c.v4 + c.v6),
     "abort " + matcher]
  }

  lemma {:induction false} NamesOneLine(nets: seq<string>)
    requires AllNames(nets)
    ensures OneLine(Caddy.Words(nets))
  {
    WordsAreConcat(nets);
    ConcatOneLine(nets, " ");
  }

  lemma SnippetOneLine(t: Target, c: CIDRs)
    requires OneLine(HAProxy.Sanitize(t.id)) && AllNames(c.v4 + c.v6)
    ensures AllOneLine(SnippetLines(t, c))
  {
    NamesOneLine(c.v4 + c.v6);
    assert OneLine("@ipwatch_") && OneLine(" not remote_ip ") && OneLine(" remote_ip ") && OneLine("abort ");
    OneLineSnippet("@ipwatch_" + HAProxy.Sanitize(t.id), if t.mode == "allow" then " not remote_ip " else " remote_ip ",
                   Caddy.Words(c.v4 + c.v6));
  }

  lemma OneLineSnippet(m: string, x: string, ws: string)
    requires OneLine(m) && OneLine(x) && OneLine(ws) && OneLine("abort ")
    ensures AllOneLine([m + x + ws, "abort " + m])
  {
  }

  /** The snippet is read as the abort that is meant. */
  lemma SnippetRead(t: Target, c: CIDRs)
    requires IsWord("@ipwatch_" + HAProxy.Sanitize(t.id), IsBlank) && OneLine(HAProxy.Sanitize(t.id))
    requires OneLine(c.provider) && OneLine(t.mode) && AllNames(c.v4 + c.v6)
    ensures ReadAbort(Renders.CaddyText(t, c)) == Some(Abort(t.mode == "allow", c.v4 + c.v6))
  {
    var matcher, nets := "@ipwatch_" + HAProxy.Sanitize(t.id), c.v4 + c.v6;
    var s1 := (if t.mode == "allow" then [matcher, "not", "remote_ip"] else [matcher, "remote_ip"]) + nets;
    SnippetIsLines(t, c);
    SnippetOneLine(t, c);
    assert OneLine("snippet");
    BehindBanner("snippet", t, c, SnippetLines(t, c));
    NotMatcherRead(matcher, nets);
    MatcherRead(matcher, nets);
    AbortRead(matcher);
    assert s1[0] == matcher && matcher[0] == '@';
    CountsBy(s1);
    CountsBy(["abort", matcher]);
    TwoStatements(SnippetLines(t, c)[0], SnippetLines(t, c)[1], s1, ["abort", matcher], IsBlank);
    assert SnippetLines(t, c) == [SnippetLines(t, c)[0], SnippetLines(t, c)[1]];
    AbortOf(matcher, t.mode == "allow", nets);
  }

  lemma AbortOf(matcher: string, allow: bool, nets: seq<string>)
    requires HasPrefix(matcher, "@")
    ensures AbortIn([(if allow then [matcher, "not", "remote_ip"] else [matcher, "remote_ip"]) + nets,
                     ["abort", matcher]]) == Some(Abort(allow, nets))
  {
    var s1 := (if allow then [matcher, "not", "remote_ip"] else [matcher, "remote_ip"]) + nets;
    if allow {
      assert s1[1..3] == ["not", "remote_ip"] && s1[3..] == nets;
    } else {
      assert s1[2..] == nets;
    }
  }

  /** Caddy: the snippet aborts exactly the requests from addresses that are not wanted. */
  lemma CaddyAborts(t: Target, c: CIDRs, parse: Parser, a: Addr)
    requires IsWord("@ipwatch_" + HAProxy.Sanitize(t.id), IsBlank) && OneLine(HAProxy.Sanitize(t.id))
    requires OneLine(c.provider) && OneLine(t.mode) && AllNames(c.v4 + c.v6)
    ensures ReadAbort(Renders.CaddyText(t, c)).Some?
    ensures Aborted(ReadAbort(Renders.CaddyText(t, c)).value, parse, a)
            <==> !LetIn(t.mode == "allow", c.v4 + c.v6, parse, a)
  {
    SnippetRead(t, c);
  }

  // ---------- what Apache reads ----------

  function ProxyFileLines(nets: seq<string>): (r: seq<string>) {
    if nets == [] then [] else ["RemoteIPTrustedProxy " + nets[0]] + ProxyFileLines(nets[1..])
  }

  function RemoteLines(t: Target, c: CIDRs): (r: seq<string>) {
    if t.config.realIP then ["RemoteIPHeader " + HAProxy.RealIPHeader(c.provider)] + ProxyFileLines(c.v4 + c.v6) else []
  }

  function AllowLines(nets: seq<string>): (r: seq<string>) {
    ["<Location />", "    Require ip " + Caddy.Words(nets), "</Location>"]
  }

  const OPENING := ["<Location />", "    <RequireAll>", "        Require all granted"]

  function ClosingLines(nets: seq<string>): (r: seq<string>) {
    ["        Require not ip " + Caddy.Words(nets), "    </RequireAll>", "</Location>"]
  }

  function LocationLines(t: Target, nets: seq<string>): (r: seq<string>) {
    if t.mode == "allow" then AllowLines(nets) else OPENING + ClosingLines(nets)
  }

  lemma {:induction false} ProxiesAreLines(nets: seq<string>)
    ensures Renders.ProxyLines(nets) == Lines(ProxyFileLines(nets))
  {
    if nets != [] {
      ProxiesAreLines(nets[1..]);
      LinesCons("RemoteIPTrustedProxy " + nets[0], ProxyFileLines(nets[1..]));
    }
  }

  lemma RemotePieces()
    ensures "RemoteIPTrustedProxy " == "RemoteIPTrustedProxy" + " " && "RemoteIPHeader " == "RemoteIPHeader" + " "
    ensures IsWord("RemoteIPTrustedProxy", IsBlank) && IsWord("RemoteIPHeader", IsBlank)
    ensures OneLine("RemoteIPTrustedProxy ") && OneLine("RemoteIPHeader ")
  {
  }

  lemma ProxyRead(verb: string, net: string)
    requires IsWord(verb, IsBlank) && IsWord(net, IsBlank)
    ensures FieldsBy(verb + " " + net, IsBlank) == [verb, net]
  {
    OneWord(verb, IsBlank);
    WordBehindBlank(verb, net, IsBlank);
  }

  lemma WithoutCons(st: Statement, rest: seq<Statement>)
    ensures WithoutRemoteIP([st] + rest) == (if SetsUpRemoteIP(st) then [] else [st]) + WithoutRemoteIP(rest)
  {
    assert ([st] + rest)[1..] == rest;
  }

  lemma ProxySkipped(net: string, ls: seq<string>)
    requires IsName(net)
    ensures WithoutRemoteIP(Statements(["RemoteIPTrustedProxy " + net] + ls, IsBlank))
         == WithoutRemoteIP(Statements(ls, IsBlank))
  {
    RemotePieces();
    ProxyRead("RemoteIPTrustedProxy", net);
    CountsBy(["RemoteIPTrustedProxy", net]);
    StatementsCons("RemoteIPTrustedProxy " + net, ls, ["RemoteIPTrustedProxy", net], IsBlank);
    WithoutCons(["RemoteIPTrustedProxy", net], Statements(ls, IsBlank));
  }

  lemma {:induction false} ProxiesSkipped(nets: seq<string>, ls: seq<string>)
    requires AllNames(nets)
    ensures WithoutRemoteIP(Statements(ProxyFileLines(nets) + ls, IsBlank)) == WithoutRemoteIP(Statements(ls, IsBlank))
  {
    if nets == [] {
      Units(ls);
    } else {
      ProxiesSkipped(nets[1..], ls);
      ProxySkipped(nets[0], ProxyFileLines(nets[1..]) + ls);
      Assoc(["RemoteIPTrustedProxy " + nets[0]], ProxyFileLines(nets[1..]), ls);
    }
  }

  lemma {:induction false} ProxiesOneLine(nets: seq<string>)
    requires AllNames(nets)
    ensures AllOneLine(ProxyFileLines(nets))
  {
    if nets != [] {
      RemotePieces();
      ProxiesOneLine(nets[1..]);
    }
  }

  lemma HeaderIsName(provider: string)
    ensures IsName(HAProxy.RealIPHeader(provider))
  {
    var h := HAProxy.RealIPHeader(provider);
    if h == "CF-Connecting-IP" {
      assert IsName("CF-Connecting-IP");
    } else {
      assert IsName("X-Forwarded-For");
    }
  }

  lemma RemoteSkipped(t: Target, c: CIDRs, ls: seq<string>)
    requires AllNames(c.v4 + c.v6)
    ensures WithoutRemoteIP(Statements(RemoteLines(t, c) + ls, IsBlank)) == WithoutRemoteIP(Statements(ls, IsBlank))
    ensures AllOneLine(RemoteLines(t, c))
  {
    if t.config.realIP {
      var h := HAProxy.RealIPHeader(c.provider);
      var proxies := ProxyFileLines(c.v4 + c.v6);
      HeaderIsName(c.provider);
      RemotePieces();
      ProxiesSkipped(c.v4 + c.v6, ls);
      ProxiesOneLine(c.v4 + c.v6);
      ProxyRead("RemoteIPHeader", h);
      CountsBy(["RemoteIPHeader", h]);
      Assoc(["RemoteIPHeader " + h], proxies, ls);
      StatementsCons("RemoteIPHeader " + h, proxies + ls, ["RemoteIPHeader", h], IsBlank);
      WithoutCons(["RemoteIPHeader", h], Statements(proxies + ls, IsBlank));
    } else {
      Units(ls);
    }
  }

  lemma LocationPieces()
    ensures "<Location />" == "<Location" + " " + "/>"
    ensures IsWord("<Location", IsBlank) && IsWord("/>", IsBlank) && IsWord("</Location>", IsBlank)
  {
  }

  lemma AllPieces()
    ensures "    <RequireAll>" == "    " + "<RequireAll>" && "    </RequireAll>" == "    " + "</RequireAll>"
    ensures IsWord("<RequireAll>", IsBlank) && IsWord("</RequireAll>", IsBlank)
  {
  }

  lemma RequirePieces()
    ensures "    Require ip " == "    " + ("Require" + " " + "ip") + " "
    ensures "        Require not ip " == "        " + ("Require" + " " + ("not" + " " + "ip")) + " "
    ensures "        Require all granted" == "        " + ("Require" + " " + ("all" + " " + "granted"))
    ensures IsWord("Require", IsBlank) && IsWord("ip", IsBlank) && IsWord("not", IsBlank) && IsWord("all", IsBlank)
    ensures IsWord("granted", IsBlank)
  {
  }

  lemma Padded(pad: string, w: string)
    requires Blank(pad, IsBlank) && IsWord(w, IsBlank)
    ensures FieldsBy(pad + w, IsBlank) == [w]
  {
    BlankFront(pad, w, IsBlank);
    OneWord(w, IsBlank);
  }

  lemma LocationRead()
    ensures FieldsBy("<Location />", IsBlank) == ["<Location", "/>"]
    ensures FieldsBy("</Location>", IsBlank) == ["</Location>"]
  {
    LocationPieces();
    ProxyRead("<Location", "/>");
    OneWord("</Location>", IsBlank);
  }

  lemma RequireAllRead()
    ensures FieldsBy("    <RequireAll>", IsBlank) == ["<RequireAll>"]
    ensures FieldsBy("    </RequireAll>", IsBlank) == ["</RequireAll>"]
  {
    AllPieces();
    Padded("    ", "<RequireAll>");
    Padded("    ", "</RequireAll>");
  }

  lemma RequireRead(nets: seq<string>)
    requires AllNames(nets)
    ensures FieldsBy("    Require ip " + Caddy.Words(nets), IsBlank) == ["Require", "ip"] + nets
    ensures FieldsBy("        Require not ip " + Caddy.Words(nets), IsBlank) == ["Require", "not", "ip"] + nets
    ensures FieldsBy("        Require all granted", IsBlank) == ["Require", "all", "granted"]
  {
    RequirePieces();
    TwoWords("    ", "Require", "ip", IsBlank);
    ListBehind("    " + ("Require" + " " + "ip"), nets);
    ThreeWords("        ", "Require", "not", "ip", IsBlank);
    ListBehind("        " + ("Require" + " " + ("not" + " " + "ip")), nets);
    ThreeWords("        ", "Require", "all", "granted", IsBlank);
  }

  function AllowStatements(nets: seq<string>): (r: seq<Statement>) {
    [["<Location", "/>"], ["Require", "ip"] + nets, ["</Location>"]]
  }

  const OPENED := [["<Location", "/>"], ["<RequireAll>"], ["Require", "all", "granted"]]

  function ClosingStatements(nets: seq<string>): (r: seq<Statement>) {
    [["Require", "not", "ip"] + nets, ["</RequireAll>"], ["</Location>"]]
  }

  function LocationStatements(t: Target, nets: seq<string>): (r: seq<Statement>) {
    if t.mode == "allow" then AllowStatements(nets) else OPENED + ClosingStatements(nets)
  }

  lemma GrantOf(t: Target, nets: seq<string>)
    requires nets != []
    ensures GrantIn(LocationStatements(t, nets)) == Some(if t.mode == "allow" then Inside(nets) else Outside(nets))
  {
    var s1, s2 := ["Require", "ip"] + nets, ["Require", "not", "ip"] + nets;
    assert s1[..2] == ["Require", "ip"] && s1[2..] == nets && s2[..3] == ["Require", "not", "ip"] && s2[3..] == nets;
  }

  lemma {:induction false} NotRemote(sts: seq<Statement>)
    requires forall i :: 0 <= i < |sts| ==> !SetsUpRemoteIP(sts[i])
    ensures WithoutRemoteIP(sts) == sts
  {
    if sts != [] {
      NotRemote(sts[1..]);
      assert sts == [sts[0]] + sts[1..];
    }
  }

  lemma LocationNotRemote(t: Target, nets: seq<string>)
    ensures forall i :: 0 <= i < |LocationStatements(t, nets)| ==> !SetsUpRemoteIP(LocationStatements(t, nets)[i])
  {
    var s1, s2 := ["Require", "ip"] + nets, ["Require", "not", "ip"] + nets;
    assert s1[0] == "Require" && s2[0] == "Require";
    assert !SetsUpRemoteIP(s1) && !SetsUpRemoteIP(s2);
  }

  lemma ThreeStatements(a: string, b: string, c: string, x: Statement, y: Statement, z: Statement)
    requires FieldsBy(a, IsBlank) == x && FieldsBy(b, IsBlank) == y && FieldsBy(c, IsBlank) == z
    requires Counts(x) && Counts(y) && Counts(z)
    ensures Statements([a, b, c], IsBlank) == [x, y, z]
  {
    TwoStatements(b, c, y, z, IsBlank);
    StatementsCons(a, [b, c], x, IsBlank);
    assert [a, b, c] == [a] + [b, c];
  }

  lemma LocationCounts(nets: seq<string>)
    ensures Counts(["<Location", "/>"]) && Counts(["<RequireAll>"]) && Counts(["Require", "all", "granted"])
    ensures Counts(["Require", "ip"] + nets) && Counts(["Require", "not", "ip"] + nets)
    ensures Counts(["</RequireAll>"]) && Counts(["</Location>"])
  {
    var s1, s2 := ["Require", "ip"] + nets, ["Require", "not", "ip"] + nets;
    assert s1[0] == "Require" && s2[0] == "Require";
    CountsBy(s1);
    CountsBy(s2);
    CountsBy(["<Location", "/>"]);
    CountsBy(["<RequireAll>"]);
    CountsBy(["Require", "all", "granted"]);
    CountsBy(["</RequireAll>"]);
    CountsBy(["</Location>"]);
  }

  lemma AllowRead(nets: seq<string>)
    requires AllNames(nets)
    ensures Statements(AllowLines(nets), IsBlank)
         == AllowStatements(nets)
  {
    LocationRead();
    RequireRead(nets);
    LocationCounts(nets);
    ThreeStatements("<Location />", "    Require ip " + Caddy.Words(nets), "</Location>",
                    ["<Location", "/>"], ["Require", "ip"] + nets, ["</Location>"]);
  }

  lemma OpeningRead()
    ensures Statements(OPENING, IsBlank)
         == OPENED
  {
    LocationRead();
    RequireAllRead();
    RequireRead([]);
    LocationCounts([]);
    ThreeStatements("<Location />", "    <RequireAll>", "        Require all granted",
                    ["<Location", "/>"], ["<RequireAll>"], ["Require", "all", "granted"]);
  }

  lemma ClosingRead(nets: seq<string>)
    requires AllNames(nets)
    ensures Statements(ClosingLines(nets), IsBlank)
         == ClosingStatements(nets)
  {
    LocationRead();
    RequireAllRead();
    RequireRead(nets);
    LocationCounts(nets);
    ThreeStatements("        Require not ip " + Caddy.Words(nets), "    </RequireAll>", "</Location>",
                    ["Require", "not", "ip"] + nets, ["</RequireAll>"], ["</Location>"]);
  }

  lemma LocationLinesRead(t: Target, nets: seq<string>)
    requires AllNames(nets)
    ensures Statements(LocationLines(t, nets), IsBlank) == LocationStatements(t, nets)
  {
    if t.mode == "allow" {
      AllowRead(nets);
    } else {
      OpeningRead();
      ClosingRead(nets);
      StatementsConcat(OPENING, ClosingLines(nets), IsBlank);
    }
  }

  lemma LocationOneLine(t: Target, nets: seq<string>)
    requires AllNames(nets)
    ensures AllOneLine(LocationLines(t, nets))
  {
    NamesOneLine(nets);
    LocationTextsOneLine();
  }

  lemma LocationTextsOneLine()
    ensures OneLine("<Location />") && OneLine("</Location>") && OneLine("    <RequireAll>")
    ensures OneLine("    </RequireAll>") && OneLine("        Require all granted")
    ensures OneLine("    Require ip ") && OneLine("        Require not ip ")
  {
  }

  lemma NewlinePieces()
    ensures "<Location />\n" == "<Location />" + "\n" && "</Location>\n" == "</Location>" + "\n"
    ensures "    <RequireAll>\n" == "    <RequireAll>" + "\n" && "    </RequireAll>\n" == "    </RequireAll>" + "\n"
    ensures "        Require all granted\n" == "        Require all granted" + "\n"
  {
  }

  lemma ThreeLines(a: string, b: string, c: string)
    ensures Lines([a, b, c]) == a + "\n" + (b + "\n" + (c + "\n"))
  {
    TwoLines(b, c);
    LinesCons(a, [b, c]);
    assert [a, b, c] == [a] + [b, c];
  }

  lemma SixJoined(a: string, b: string, c: string, d: string, e: string, f: string)
    ensures a + "\n" + (b + "\n" + (c + "\n") + (d + "\n") + (e + "\n")) + (f + "\n")
         == a + "\n" + (b + "\n" + (c + "\n")) + (d + "\n" + (e + "\n" + (f + "\n")))
  {
  }

  function LocationText(t: Target, nets: string): (r: string) {
    "<Location />\n"
    + (if t.mode == "allow" then "    Require ip " + nets + "\n"
       else "    <RequireAll>\n" + "        Require all granted\n" + ("        Require not ip " + nets + "\n")
            + "    </RequireAll>\n")
    + "</Location>\n"
  }

  lemma LocationIsLines(t: Target, nets: seq<string>)
    ensures LocationText(t, Caddy.Words(nets)) == Lines(LocationLines(t, nets))
  {
    var ws := Caddy.Words(nets);
    NewlinePieces();
    if t.mode == "allow" {
      ThreeLines("<Location />", "    Require ip " + ws, "</Location>");
      Assoc("<Location />" + "\n", "    Require ip " + ws + "\n", "</Location>" + "\n");
    } else {
      ThreeLines("<Location />", "    <RequireAll>", "        Require all granted");
      ThreeLines("        Require not ip " + ws, "    </RequireAll>", "</Location>");
      LinesConcat(OPENING, ClosingLines(nets));
      SixJoined("<Location />", "    <RequireAll>", "        Require all granted", "        Require not ip " + ws,
                "    </RequireAll>", "</Location>");
    }
  }

  lemma ApacheIsLines(t: Target, c: CIDRs)
    ensures Renders.ApacheText(t, c)
         == Renders.Banner("file", t, c) + Lines(RemoteLines(t, c) + LocationLines(t, c.v4 + c.v6))
  {
    var nets := c.v4 + c.v6;
    LocationIsLines(t, nets);
    RemoteIsLines(t, c);
    LinesConcat(RemoteLines(t, c), LocationLines(t, nets));
    ApacheJoined(Renders.Banner("file", t, c), RemoteText(t, c), "<Location />\n",
                 if t.mode == "allow" then "    Require ip " + Caddy.Words(nets) + "\n"
                 else "    <RequireAll>\n" + "        Require all granted\n"
                      + ("        Require not ip " + Caddy.Words(nets) + "\n") + "    </RequireAll>\n",
                 "</Location>\n");
  }

  lemma ApacheJoined(a: string, b: string, c: string, d: string, e: string)
    ensures a + b + c + d + e == a + (b + (c + d + e))
  {
  }

  function RemoteText(t: Target, c: CIDRs): (r: string) {
    if t.config.realIP
    then "RemoteIPHeader " + HAProxy.RealIPHeader(c.provider) + "\n" + Renders.ProxyLines(c.v4 + c.v6) else ""
  }

  lemma RemoteIsLines(t: Target, c: CIDRs)
    ensures RemoteText(t, c) == Lines(RemoteLines(t, c))
  {
    if t.config.realIP {
      ProxiesAreLines(c.v4 + c.v6);
      LinesCons("RemoteIPHeader " + HAProxy.RealIPHeader(c.provider), ProxyFileLines(c.v4 + c.v6));
    }
  }

  /** The file is read as the grant that is meant. */
  lemma GrantRead(t: Target, c: CIDRs)
    requires OneLine(c.provider) && OneLine(t.mode) && AllNames(c.v4 + c.v6) && c.v4 + c.v6 != []
    ensures ReadGrant(Renders.ApacheText(t, c))
         == Some(if t.mode == "allow" then Inside(c.v4 + c.v6) else Outside(c.v4 + c.v6))
  {
    var nets := c.v4 + c.v6;
    ApacheIsLines(t, c);
    RemoteSkipped(t, c, LocationLines(t, nets));
    LocationOneLine(t, nets);
    OneLinesBoth(RemoteLines(t, c), LocationLines(t, nets));
    assert OneLine("file");
    BehindBanner("file", t, c, RemoteLines(t, c) + LocationLines(t, nets));
    LocationLinesRead(t, nets);
    LocationNotRemote(t, nets);
    NotRemote(LocationStatements(t, nets));
    GrantOf(t, nets);
  }

  /** Apache: the file grants exactly the addresses that are wanted. */
  lemma ApacheGrants(t: Target, c: CIDRs, parse: Parser, a: Addr)
    requires OneLine(c.provider) && OneLine(t.mode) && AllNames(c.v4 + c.v6) && c.v4 + c.v6 != []
    ensures ReadGrant(Renders.ApacheText(t, c)).Some?
    ensures Granted(ReadGrant(Renders.ApacheText(t, c)).value, parse, a)
            <==> LetIn(t.mode == "allow", c.v4 + c.v6, parse, a)
  {
    GrantRead(t, c);
  }
}
