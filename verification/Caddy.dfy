/** The Caddy engine's two-key edit: an import below the site header and, for real_ip, a
    trusted_proxies block in the global options. */
module Caddy {
  import opened Text
  import opened ManagedBlocks
  import opened FileItems

  // ---------- what the code looks for ----------

  /** A top-level line that ends in `{` and lists the selector among its labels; any such line if there is no
      selector. */
  function SiteMatcher(selector: string): (m: Matcher) {
    line =>
      && !StartsWithSpace(line)
      && var trimmed := TrimSpace(line);
         && HasSuffix(trimmed, "{")
         && (selector == "" || selector in FieldsBy(TrimSuffix(trimmed, "{"), IsLabelSep))
  }

  predicate IsLabelSep(c: char) {
    c == ',' || c == ' ' || c == '\t'
  }

  function BareBrace(): (m: Matcher) {
    line => !StartsWithSpace(line) && TrimSpace(line) == "{"
  }

  /** The first line that is neither blank nor a comment is a bare `{`. */
  function FirstRealIsBrace(ls: seq<string>): (r: bool) {
    if ls == [] then false
    else
      var t := TrimSpace(ls[0]);
      if t == "" || HasPrefix(t, "#") then FirstRealIsBrace(ls[1..]) else t == "{"
  }

  predicate HasGlobalBlock(conf: string) {
    FirstRealIsBrace(Split(conf))
  }

  method CheckGlobalBlock(conf: string) returns (b: bool)
    ensures b == HasGlobalBlock(conf)
  {
    var lines := Split(conf);
    assert lines[0..] == lines;
    for i := 0 to |lines|
      invariant FirstRealIsBrace(lines) == FirstRealIsBrace(lines[i..])
    {
      assert lines[i..][1..] == lines[i + 1..];
      var t := TrimSpace(lines[i]);
      if t == "" || HasPrefix(t, "#") {
        continue;
      }
      return t == "{";
    }
    return false;
  }

  predicate IsReSpace(c: char) {
    c == ' ' || c == '\t' || c == '\n' || c == '\r' || c == '\U{000C}'
  }

  predicate IsReWord(c: char) {
    c == '_' || 'a' <= c <= 'z' || 'A' <= c <= 'Z' || '0' <= c <= '9'
  }

  /** `servers {` or the word `trusted_proxies` stands at the beginning of some line, after white space. */
  predicate GlobalHasServers(src: string) {
    exists i, j :: 0 <= i <= j <= |src| && OptionAt(src, i, j)
  }

  predicate OptionAt(src: string, i: nat, j: nat)
    requires i <= j <= |src|
  {
    && (i == 0 || src[i - 1] == '\n')
    && (forall k :: i <= k < j ==> IsReSpace(src[k]))
    && (ServersAt(src, j) || TrustedProxiesAt(src, j))
  }

  predicate ServersAt(src: string, j: nat)
    requires j <= |src|
  {
    && HasPrefix(src[j..], "servers")
    && exists k :: j + 7 <= k < |src| && src[k] == '{' && forall l :: j + 7 <= l < k ==> IsReSpace(src[l])
  }

  predicate TrustedProxiesAt(src: string, j: nat)
    requires j <= |src|
  {
    HasPrefix(src[j..], "trusted_proxies") && (j + 15 == |src| || !IsReWord(src[j + 15]))
  }

  // ---------- the edit ----------

  function Words(ss: seq<string>): (r: string) {
    if ss == [] then "" else if |ss| == 1 then ss[0] else ss[0] + " " + Words(ss[1..])
  }

  function TrustedProxies(cidrs: seq<string>): (r: string) {
    "trusted_proxies static " + Words(cidrs)
  }

  /** The global block that is put in front of the file. */
  function GlobalText(gk: Marks, tp: string): (r: string) {
    gk.begin + "\n{\n\tservers {\n\t\t" + tp + "\n\t}\n}\n" + gk.end + "\n"
  }

  function GlobalLines(gk: Marks, tp: string): (r: seq<string>) {
    [gk.begin, "{", "\tservers {", "\t\t" + tp, "\t}", "}", gk.end]
  }

  /** The lines that are merged into an existing global block. */
  function MergedLines(gk: Marks, tp: string): (r: seq<string>) {
    Block(gk, MergedPayload(tp), "\t")
  }

  function MergedPayload(tp: string): (r: seq<string>) {
    ["servers {", "\t" + tp, "}"]
  }

  const ALREADY_DEFINED := "real_ip: Caddyfile already defines servers/trusted_proxies global opt"

  function AddTrustedProxies(src: string, gk: Marks, tp: string): (r: Result<string>) {
    if !HasGlobalBlock(src) then Ok(GlobalText(gk, tp) + src)
    else if GlobalHasServers(src) then Err(ALREADY_DEFINED)
    else Place(src, MergedLines(gk, tp), "", BareBrace())
  }

  /** The import block for the key, then the trusted_proxies block if real_ip asks for it (tp present). */
  function Inject(conf: string, mk: Marks, gk: Marks, reference: string, selector: string,
                  tp: Option<string>): (r: Result<string>) {
    var placed := Place(Strip(conf, mk), Block(mk, [reference], "\t"), selector, SiteMatcher(selector));
    if placed.Err? || tp.None? then placed
    else AddTrustedProxies(Strip(placed.value, gk), gk, tp.value)
  }

  method EnsureTrustedProxies(conf: string, gk: Marks, tp: string) returns (r: Result<string>)
    ensures r == AddTrustedProxies(Strip(conf, gk), gk, tp)
  {
    var src := StripManaged(conf, gk);
    var global := CheckGlobalBlock(src);
    if !global {
      return Ok(GlobalText(gk, tp) + src);
    }
    if GlobalHasServers(src) {
      return Err(ALREADY_DEFINED);
    }
    StripClean(conf, gk);
    r := InjectAfterHeader(src, gk, MergedPayload(tp), "\t", "", BareBrace());
  }

  method InjectSite(conf: string, mk: Marks, gk: Marks, reference: string, selector: string, tp: Option<string>)
      returns (r: Result<string>)
    ensures r == Inject(conf, mk, gk, reference, selector, tp)
  {
    r := InjectAfterHeader(conf, mk, [reference], "\t", selector, SiteMatcher(selector));
    if r.Ok? && tp.Some? {
      r := EnsureTrustedProxies(r.value, gk, tp.value);
    }
  }

  // ---------- the two blocks are sound items ----------

  /** What the marks of a target's key look like. */
  predicate KeyMarks(mk: Marks) {
    && OneLine(mk.begin) && OneLine(mk.end)
    && mk.begin[0] == '#' && mk.end[0] == '#'
    && mk.begin[|mk.begin| - 1] != '{' && mk.end[|mk.end| - 1] != '{'
  }

  lemma KeysHaveKeyMarks(key: string)
    requires OneLine(key)
    ensures KeyMarks(MarksOf(key))
  {
    MarksOneLine(key);
    var mk := MarksOf(key);
    assert mk.begin[0] == '#' && mk.end[0] == '#' && mk.begin[|mk.begin| - 1] == '>' && mk.end[|mk.end| - 1] == '<';
  }

  /** A line made of padding and a text that starts with a visible character other than '#'. */
  predicate Visible(line: string, pad: string, text: string) {
    AllSpace(pad) && OneLine(pad) && line == pad + text && PlainLine(text)
  }

  lemma VisibleUnmarked(line: string, pad: string, text: string, mk: Marks)
    requires Visible(line, pad, text) && KeyMarks(mk)
    ensures OneLine(line) && !IsBegin(line, mk) && !IsEnd(line, mk)
  {
    ForeignIsNoMark(pad, text, mk);
  }

  lemma GlobalVisible(gk: Marks, tp: string, i: nat) returns (pad: string, text: string)
    requires PlainLine(tp) && 0 < i < 6
    ensures Visible(GlobalLines(gk, tp)[i], pad, text)
  {
    pad := if i == 2 || i == 4 then "\t" else if i == 3 then "\t\t" else "";
    text := if i == 1 then "{" else if i == 2 then "servers {" else if i == 3 then tp else "}";
  }

  lemma MarkAlone(mk: Marks)
    ensures TrimSpace(mk.begin) == mk.begin && TrimSpace(mk.end) == mk.end
  {
    TrimPadded("", mk.begin);
    TrimPadded("", mk.end);
    assert "" + mk.begin == mk.begin && "" + mk.end == mk.end;
  }

  lemma GlobalSound(mk: Marks, gk: Marks, tp: string)
    requires KeyMarks(mk) && KeyMarks(gk) && Apart(mk, gk) && PlainLine(tp)
    ensures OwnBlock(gk, GlobalLines(gk, tp), {mk, gk})
  {
    var g := GlobalLines(gk, tp);
    MarkAlone(gk);
    forall i | 0 < i < 6 ensures OneLine(g[i]) && !IsEnd(g[i], gk) && Unmarked(g[i], {mk, gk}) {
      var pad, text := GlobalVisible(gk, tp, i);
      VisibleUnmarked(g[i], pad, text, gk);
      VisibleUnmarked(g[i], pad, text, mk);
    }
    assert {mk, gk} - {gk} == {mk};
  }

  lemma ImportSound(mk: Marks, gk: Marks, reference: string)
    requires KeyMarks(mk) && KeyMarks(gk) && Apart(mk, gk) && PlainLine(reference)
    ensures OwnBlock(mk, Block(mk, [reference], "\t"), {mk, gk}) && IndentedLines(Block(mk, [reference], "\t"))
  {
    assert Visible("\t" + reference, "\t", reference);
    VisibleUnmarked("\t" + reference, "\t", reference, mk);
    VisibleUnmarked("\t" + reference, "\t", reference, gk);
    InstalledBlockOwn(mk, [reference], "\t", {mk, gk});
    IndentedBlock(mk, [reference], "\t");
  }

  lemma MergedSound(mk: Marks, gk: Marks, tp: string)
    requires KeyMarks(mk) && KeyMarks(gk) && Apart(mk, gk) && PlainLine(tp)
    ensures OwnBlock(gk, MergedLines(gk, tp), {mk, gk}) && IndentedLines(MergedLines(gk, tp))
  {
    var p := MergedPayload(tp);
    forall i | 0 <= i < |p| ensures OneLine(p[i]) && !IsEnd("\t" + p[i], gk) && Unmarked("\t" + p[i], {mk, gk}) {
      var pad := if i == 1 then "\t\t" else "\t";
      var text := if i == 0 then "servers {" else if i == 1 then tp else "}";
      assert "\t" + p[i] == pad + text;
      VisibleUnmarked("\t" + p[i], pad, text, gk);
      VisibleUnmarked("\t" + p[i], pad, text, mk);
      assert OneLine(p[i]) by {
        assert p[i] == ("\t" + p[i])[1..];
      }
    }
    InstalledBlockOwn(gk, p, "\t", {mk, gk});
    IndentedBlock(gk, p, "\t");
  }

  lemma BraceIsNoSite(selector: string)
    requires selector != ""
    ensures !SiteMatcher(selector)("{")
  {
    assert TrimSpace("{") == "{" && TrimSuffix("{", "{") == "";
  }

  lemma CloseIsNoSite(selector: string)
    ensures !SiteMatcher(selector)("}")
  {
    assert TrimSpace("}") == "}";
  }

  lemma MarkIsNoSite(mark: string, selector: string)
    requires TrimSpace(mark) == mark && mark != "" && mark[|mark| - 1] != '{'
    ensures !SiteMatcher(selector)(mark)
  {
  }

  /** With a non-empty selector, no line of the managed global block is a site header. */
  lemma GlobalHasNoSite(gk: Marks, tp: string, selector: string)
    requires KeyMarks(gk) && selector != ""
    ensures FirstHeader(GlobalLines(gk, tp), SiteMatcher(selector)) == 7
  {
    MarkAlone(gk);
    MarkIsNoSite(gk.begin, selector);
    MarkIsNoSite(gk.end, selector);
    BraceIsNoSite(selector);
    CloseIsNoSite(selector);
    NoneOfSeven(gk.begin, "\tservers {", "\t\t" + tp, "\t}", gk.end, SiteMatcher(selector));
  }

  lemma NoneOfSeven(first: string, a: string, b: string, c: string, last: string, m: Matcher)
    requires TopLevelOnly(m) && StartsWithSpace(a) && StartsWithSpace(b) && StartsWithSpace(c)
    requires !m(first) && !m("{") && !m("}") && !m(last)
    ensures FirstHeader([first, "{", a, b, c, "}", last], m) == 7
  {
    NoHeader([first, "{", a, b, c, "}", last], m);
  }

  lemma JoinThree(a: string, b: string, c: string, rest: seq<string>)
    requires rest != []
    ensures Join([a, b, c] + rest) == a + ("\n" + b + "\n" + c + "\n") + Join(rest)
  {
    var ls := [a, b, c] + rest;
    assert Join(ls) == a + "\n" + Join([b, c] + rest) by { assert ls[1..] == [b, c] + rest; }
    assert Join([b, c] + rest) == b + "\n" + Join([c] + rest) by { assert ([b, c] + rest)[1..] == [c] + rest; }
    assert Join([c] + rest) == c + "\n" + Join(rest) by { assert ([c] + rest)[1..] == rest; }
  }

  lemma JoinGlobal(gk: Marks, tp: string)
    ensures Join(GlobalLines(gk, tp)) + "\n" == GlobalText(gk, tp)
  {
    var t := "\t\t" + tp;
    JoinThree(t, "\t}", "}", [gk.end]);
    JoinThree(gk.begin, "{", "\tservers {", [t, "\t}", "}"] + [gk.end]);
    assert GlobalLines(gk, tp) == [gk.begin, "{", "\tservers {"] + ([t, "\t}", "}"] + [gk.end]);
    GlobalPieces();
    Regrouped(gk.begin, "\n{\n\tservers {\n", "\t\t", tp, "\n\t}\n}\n", gk.end);
  }

  lemma GlobalPieces()
    ensures "\n" + "{" + "\n" + "\tservers {" + "\n" == "\n{\n\tservers {\n"
    ensures "\n" + "\t}" + "\n" + "}" + "\n" == "\n\t}\n}\n"
    ensures "\n{\n\tservers {\n" + "\t\t" == "\n{\n\tservers {\n\t\t"
  {
  }

  lemma Regrouped(a: string, b: string, c: string, d: string, e: string, f: string)
    ensures a + b + (c + d + e + f) + "\n" == a + (b + c) + d + e + f + "\n"
  {
  }

  // ---------- the edit, on items ----------

  /** The block for the import line. */
  function Import(mk: Marks, reference: string): (r: Item) {
    Owned(mk, Block(mk, [reference], "\t"))
  }

  /** A file whose lines are `base` once the blocks of both keys are left out. */
  predicate Over(items: seq<Item>, base: seq<string>, mk: Marks, gk: Marks, selector: string) {
    && base != [] && BaseLines(items) == base
    && Sound(items, {mk, gk})
    && Recessed(items, SiteMatcher(selector))
    && Drop(Drop(items, mk), gk) == AsItems(base)
  }

  /** Whatever blocks of the two keys a file carries, the first half of the edit followed by the strip
      of the global key gives the text it would give on the bare file. */
  lemma SecondHalfStart(items: seq<Item>, base: seq<string>, mk: Marks, gk: Marks, reference: string, selector: string)
    requires Over(items, base, mk, gk, selector) && mk != gk
    requires OwnBlock(mk, Block(mk, [reference], "\t"), {mk, gk})
    requires FirstHeader(Block(mk, [reference], "\t"), SiteMatcher(selector)) == |Block(mk, [reference], "\t")|
    ensures var m := SiteMatcher(selector);
            var placed := Place(Strip(Join(Render(items)), mk), Block(mk, [reference], "\t"), selector, m);
            if HasHeader(base, m)
            then placed == Ok(Join(Render(Below(Drop(items, mk), Import(mk, reference), m))))
              && Strip(placed.value, gk) == Join(Render(Below(AsItems(base), Import(mk, reference), m)))
            else placed == Err(NoBlock(selector))
  {
    var m := SiteMatcher(selector);
    var dropped := Drop(items, mk);
    StripText(items, mk, {mk, gk});
    DropSound(items, mk, {mk, gk});
    DropRecessed(items, mk, m);
    PlaceText(dropped, {mk, gk}, mk, Block(mk, [reference], "\t"), selector, m);
    if HasHeader(base, m) {
      var placed := Below(dropped, Import(mk, reference), m);
      BelowSound(dropped, Import(mk, reference), m, {mk, gk});
      BelowBase(dropped, Import(mk, reference), m);
      StripText(placed, gk, {mk, gk});
      DropBelow(dropped, Import(mk, reference), m, gk);
    }
  }

  lemma BareOver(base: seq<string>, mk: Marks, gk: Marks, selector: string)
    requires base != [] && AllOneLine(base) && NoMarks(base, mk) && NoMarks(base, gk)
    ensures Over(AsItems(base), base, mk, gk, selector)
  {
    StartSound(base, {mk, gk});
    DropNothing(base, mk);
    DropNothing(base, gk);
    AsItemsRecessed(base, SiteMatcher(selector));
  }

  ghost predicate EditOk(mk: Marks, gk: Marks, reference: string) {
    KeyMarks(mk) && KeyMarks(gk) && Apart(mk, gk) && PlainLine(reference) && reference[0] != '{'
  }

  lemma ImportFits(mk: Marks, gk: Marks, reference: string, m: Matcher)
    requires EditOk(mk, gk, reference) && TopLevelOnly(m)
    ensures OwnBlock(mk, Block(mk, [reference], "\t"), {mk, gk})
    ensures FirstHeader(Block(mk, [reference], "\t"), m) == |Block(mk, [reference], "\t")|
  {
    ImportSound(mk, gk, reference);
    NoHeader(Block(mk, [reference], "\t"), m);
  }

  lemma MatchersTopLevel(selector: string)
    ensures TopLevelOnly(SiteMatcher(selector)) && TopLevelOnly(BareBrace())
  {
  }

  /** Re-applying on any file that carries intact blocks of the two keys is applying to the bare file. */
  lemma ReapplyIsApply(items: seq<Item>, base: seq<string>, mk: Marks, gk: Marks, reference: string, selector: string,
                       tp: string)
    requires EditOk(mk, gk, reference)
    requires Over(items, base, mk, gk, selector) && AllOneLine(base) && NoMarks(base, mk) && NoMarks(base, gk)
    ensures Inject(Join(Render(items)), mk, gk, reference, selector, Some(tp))
            == Inject(Join(base), mk, gk, reference, selector, Some(tp))
  {
    MatchersTopLevel(selector);
    ImportFits(mk, gk, reference, SiteMatcher(selector));
    SecondHalfStart(items, base, mk, gk, reference, selector);
    BareOver(base, mk, gk, selector);
    SecondHalfStart(AsItems(base), base, mk, gk, reference, selector);
  }

  function Imported(base: seq<string>, mk: Marks, reference: string, selector: string): (r: seq<Item>) {
    Below(AsItems(base), Import(mk, reference), SiteMatcher(selector))
  }

  lemma InjectBare(base: seq<string>, mk: Marks, gk: Marks, reference: string, selector: string, tp: string)
    requires EditOk(mk, gk, reference)
    requires base != [] && AllOneLine(base) && NoMarks(base, mk) && NoMarks(base, gk)
    ensures Inject(Join(base), mk, gk, reference, selector, Some(tp)) ==
            if HasHeader(base, SiteMatcher(selector))
            then AddTrustedProxies(Join(Render(Imported(base, mk, reference, selector))), gk, tp)
            else Err(NoBlock(selector))
  {
    MatchersTopLevel(selector);
    ImportFits(mk, gk, reference, SiteMatcher(selector));
    BareOver(base, mk, gk, selector);
    SecondHalfStart(AsItems(base), base, mk, gk, reference, selector);
  }

  lemma AddedItems(items: seq<Item>, base: seq<string>, mk: Marks, gk: Marks, selector: string, tp: string)
      returns (r: seq<Item>)
    requires KeyMarks(mk) && KeyMarks(gk) && Apart(mk, gk) && PlainLine(tp)
    requires selector != "" || HasGlobalBlock(Join(Render(items)))
    requires Over(items, base, mk, gk, selector) && Recessed(items, BareBrace())
    requires AddTrustedProxies(Join(Render(items)), gk, tp).Ok?
    ensures Over(r, base, mk, gk, selector)
    ensures AddTrustedProxies(Join(Render(items)), gk, tp) == Ok(Join(Render(r)))
  {
    if HasGlobalBlock(Join(Render(items))) {
      r := MergedItems(items, base, mk, gk, selector, tp);
    } else {
      r := PrependedItems(items, base, mk, gk, selector, tp);
    }
  }

  /** What a successful edit of a bare file leaves: the import block and the global block, in place. */
  lemma EditedItems(base: seq<string>, mk: Marks, gk: Marks, reference: string, selector: string, tp: string)
    returns (items: seq<Item>)
    requires EditOk(mk, gk, reference) && PlainLine(tp)
    requires selector != "" || HasGlobalBlock(Join(Render(Imported(base, mk, reference, selector))))
    requires base != [] && AllOneLine(base) && NoMarks(base, mk) && NoMarks(base, gk)
    requires Inject(Join(base), mk, gk, reference, selector, Some(tp)).Ok?
    ensures Inject(Join(base), mk, gk, reference, selector, Some(tp)) == Ok(Join(Render(items)))
    ensures Over(items, base, mk, gk, selector)
  {
    InjectBare(base, mk, gk, reference, selector, tp);
    BareOver(base, mk, gk, selector);
    ImportedOver(base, mk, gk, reference, selector);
    items := AddedItems(Imported(base, mk, reference, selector), base, mk, gk, selector, tp);
  }

  lemma ImportedOver(base: seq<string>, mk: Marks, gk: Marks, reference: string, selector: string)
    requires EditOk(mk, gk, reference)
    requires Over(AsItems(base), base, mk, gk, selector)
    requires HasHeader(base, SiteMatcher(selector))
    ensures Over(Below(AsItems(base), Import(mk, reference), SiteMatcher(selector)), base, mk, gk, selector)
    ensures Recessed(Below(AsItems(base), Import(mk, reference), SiteMatcher(selector)), BareBrace())
  {
    var m, it := SiteMatcher(selector), Import(mk, reference);
    MatchersTopLevel(selector);
    ImportFits(mk, gk, reference, m);
    ImportFits(mk, gk, reference, BareBrace());
    BelowSound(AsItems(base), it, m, {mk, gk});
    BelowBase(AsItems(base), it, m);
    BelowRecessed(AsItems(base), it, m, m);
    AsItemsRecessed(base, BareBrace());
    BelowRecessed(AsItems(base), it, m, BareBrace());
    DropBelow(AsItems(base), it, m, mk);
    DropNothing(base, mk);
  }

  lemma PrependedItems(items: seq<Item>, base: seq<string>, mk: Marks, gk: Marks, selector: string, tp: string)
      returns (r: seq<Item>)
    requires KeyMarks(mk) && KeyMarks(gk) && Apart(mk, gk) && PlainLine(tp) && selector != ""
    requires Over(items, base, mk, gk, selector)
    ensures Over(r, base, mk, gk, selector)
    ensures Join(Render(r)) == GlobalText(gk, tp) + Join(Render(items))
  {
    var g := Owned(gk, GlobalLines(gk, tp));
    r := [g] + items;
    GlobalSound(mk, gk, tp);
    GlobalHasNoSite(gk, tp, selector);
    OverBehind(g, items, base, mk, gk, selector);
    SoundRender(items, {mk, gk});
    assert r[1..] == items;
    JoinConcat(GlobalLines(gk, tp), Render(items));
    JoinGlobal(gk, tp);
  }

  lemma OverBehind(g: Item, items: seq<Item>, base: seq<string>, mk: Marks, gk: Marks, selector: string)
    requires Over(items, base, mk, gk, selector) && Apart(mk, gk)
    requires g.Owned? && g.mk == gk && Sound([g], {mk, gk}) && Recessed([g], SiteMatcher(selector))
    ensures Over([g] + items, base, mk, gk, selector)
  {
    var r := [g] + items;
    assert r[1..] == items && r[0] == g && [g][0] == g;
    assert ([g] + Drop(items, mk))[1..] == Drop(items, mk);
  }

  lemma MergedItems(items: seq<Item>, base: seq<string>, mk: Marks, gk: Marks, selector: string, tp: string)
      returns (r: seq<Item>)
    requires KeyMarks(mk) && KeyMarks(gk) && Apart(mk, gk) && PlainLine(tp)
    requires Over(items, base, mk, gk, selector) && Recessed(items, BareBrace())
    requires Place(Join(Render(items)), MergedLines(gk, tp), "", BareBrace()).Ok?
    ensures Over(r, base, mk, gk, selector)
    ensures Place(Join(Render(items)), MergedLines(gk, tp), "", BareBrace()) == Ok(Join(Render(r)))
  {
    var it, m := Owned(gk, MergedLines(gk, tp)), BareBrace();
    r := Below(items, it, m);
    MergedSound(mk, gk, tp);
    MatchersTopLevel(selector);
    NoHeader(it.block, SiteMatcher(selector));
    PlaceText(items, {mk, gk}, gk, it.block, "", m);
    BelowSound(items, it, m, {mk, gk});
    BelowBase(items, it, m);
    BelowRecessed(items, it, m, SiteMatcher(selector));
    DropBelow(items, it, m, mk);
    DropBelow(Drop(items, mk), it, m, gk);
  }

  /** The text after the first half of the edit begins with a global options block. */
  predicate GlobalAfterImport(conf: string, mk: Marks, reference: string, selector: string) {
    var placed := Place(conf, Block(mk, [reference], "\t"), selector, SiteMatcher(selector));
    placed.Ok? && HasGlobalBlock(placed.value)
  }

  lemma ImportedText(base: seq<string>, mk: Marks, gk: Marks, reference: string, selector: string)
    requires EditOk(mk, gk, reference)
    requires base != [] && AllOneLine(base) && NoMarks(base, mk) && NoMarks(base, gk)
    ensures Place(Join(base), Block(mk, [reference], "\t"), selector, SiteMatcher(selector)) ==
            if HasHeader(base, SiteMatcher(selector)) then Ok(Join(Render(Imported(base, mk, reference, selector))))
                else Err(NoBlock(selector))
  {
    BareOver(base, mk, gk, selector);
    PlaceText(AsItems(base), {mk, gk}, mk, Block(mk, [reference], "\t"), selector, SiteMatcher(selector));
  }

  /** Index of the first line that is neither blank nor a comment, or the number of lines. */
  function FirstReal(ls: seq<string>): (n: nat)
    ensures n <= |ls|
  {
    if ls == [] || !Skippable(ls[0]) then 0 else 1 + FirstReal(ls[1..])
  }

  predicate Skippable(line: string) {
    TrimSpace(line) == "" || HasPrefix(TrimSpace(line), "#")
  }

  /** The file opens with a global options block, and no line above it is taken for a site header. */
  predicate GlobalFirst(conf: string) {
    HasGlobalBlock(conf) && FirstReal(Split(conf)) <= FirstHeader(Split(conf), SiteMatcher(""))
  }

  /** No line above the first real one reads as a site header. */
  lemma NoSiteAbove(conf: string)
    ensures FirstReal(Split(conf)) <= FirstHeader(Split(conf), SiteMatcher(""))
            <==> forall i :: 0 <= i < FirstReal(Split(conf)) ==> !SiteMatcher("")(Split(conf)[i])
  {
    FirstHeaderMeaning(Split(conf), SiteMatcher(""));
  }

  lemma {:induction false} BraceBehind(a: seq<string>, b: seq<string>)
    ensures FirstRealIsBrace(a + b) == if FirstReal(a) < |a| then FirstRealIsBrace(a) else FirstRealIsBrace(b)
  {
    if a == [] {
      assert a + b == b;
    } else {
      assert (a + b)[1..] == a[1..] + b;
      BraceBehind(a[1..], b);
    }
  }

  lemma {:induction false} FirstRealFront(ls: seq<string>, at: nat)
    requires at <= |ls|
    ensures FirstReal(ls[..at]) == if FirstReal(ls) < at then FirstReal(ls) else at
  {
    if at > 0 {
      assert ls[..at][1..] == ls[1..][..at - 1];
      FirstRealFront(ls[1..], at - 1);
    }
  }

  /** The import block's first real line is the reference. */
  lemma ImportIsReal(mk: Marks, reference: string, rest: seq<string>)
    requires KeyMarks(mk) && PlainLine(reference) && reference[0] != '{'
    ensures !FirstRealIsBrace(Block(mk, [reference], "\t") + rest)
  {
    var b := Block(mk, [reference], "\t");
    TrimPadded("\t", mk.begin);
    TrimFirst("\t", reference);
    assert b[0] == "\t" + mk.begin && b[1] == "\t" + reference;
    assert (b + rest)[1..][0] == b[1];
  }

  /** Whether the first half of the edit leaves a global block in front can be seen on the file itself. */
  lemma GlobalFirstExactly(conf: string, mk: Marks, reference: string)
    requires KeyMarks(mk) && PlainLine(reference) && reference[0] != '{'
    requires HasHeader(Split(conf), SiteMatcher(""))
    ensures GlobalAfterImport(conf, mk, reference, "") <==> GlobalFirst(conf)
  {
    var ls, block := Split(conf), Block(mk, [reference], "\t");
    var at := FirstHeader(ls, SiteMatcher("")) + 1;
    BlockLines(mk, reference);
    assert AllOneLine(InsertLines(ls, at, block));
    SplitJoin(InsertLines(ls, at, block));
    ImportIsReal(mk, reference, ls[at..]);
    InsertedBrace(ls, at, block);
  }

  lemma InsertedBrace(ls: seq<string>, at: nat, block: seq<string>)
    requires at <= |ls| && !FirstRealIsBrace(block + ls[at..])
    ensures FirstRealIsBrace(InsertLines(ls, at, block)) <==> FirstRealIsBrace(ls) && FirstReal(ls) < at
  {
    assert InsertLines(ls, at, block) == ls[..at] + (block + ls[at..]) && ls == ls[..at] + ls[at..];
    FirstRealFront(ls, at);
    BraceBehind(ls[..at], block + ls[at..]);
    BraceBehind(ls[..at], ls[at..]);
  }

  lemma BlockLines(mk: Marks, reference: string)
    requires KeyMarks(mk) && OneLine(reference)
    ensures AllOneLine(Block(mk, [reference], "\t"))
  {
  }

  lemma CommentIsSite()
    ensures SiteMatcher("")("# a {") && Skippable("# a {") && !Skippable("{")
  {
    TrimPadded("", "# a {");
    TrimPadded("", "{");
    assert "" + "# a {" == "# a {" && "" + "{" == "{";
  }

  /** A global block alone is not enough: a comment above it that ends in a brace is taken for the site. */
  lemma CommentAboveGlobal()
    ensures var conf := Join(["# a {", "{", "}", ""]); HasGlobalBlock(conf) && !GlobalFirst(conf)
  {
    var ls := ["# a {", "{", "}", ""];
    SplitJoin(ls);
    CommentIsSite();
    assert ls[1..][0] == "{" && TrimSpace("{") == "{" by {
      TrimPadded("", "{");
      assert "" + "{" == "{";
    }
  }

  /** On a file that can be edited, the two conditions agree. */
  lemma GlobalFirstAgrees(conf: string, mk: Marks, gk: Marks, reference: string, selector: string, tp: string)
    requires EditOk(mk, gk, reference) && NoMarks(Split(conf), mk) && NoMarks(Split(conf), gk)
    requires Inject(conf, mk, gk, reference, selector, Some(tp)).Ok?
    ensures selector != "" || GlobalAfterImport(conf, mk, reference, selector) <==> selector != "" || GlobalFirst(conf)
  {
    JoinSplit(conf);
    InjectBare(Split(conf), mk, gk, reference, selector, tp);
    if selector == "" {
      GlobalFirstExactly(conf, mk, reference);
    }
  }

  /** Two-key editing of a mark-free Caddyfile with real_ip and a selector (or a global block to merge
      into): re-applying, with the same or other addresses, is applying to the original; and stripping
      both keys in the order of removal restores the original byte for byte. */
  lemma TwoKeyCycle(conf: string, mk: Marks, gk: Marks, reference: string, selector: string, tp: string, tp': string)
    requires EditOk(mk, gk, reference) && PlainLine(tp)
    requires selector != "" || GlobalFirst(conf)
    requires NoMarks(Split(conf), mk) && NoMarks(Split(conf), gk)
    requires Inject(conf, mk, gk, reference, selector, Some(tp)).Ok?
    ensures var r := Inject(conf, mk, gk, reference, selector, Some(tp)).value;
            && Inject(r, mk, gk, reference, selector, Some(tp')) == Inject(conf, mk, gk, reference, selector, Some(tp'))
            && Strip(Strip(r, mk), gk) == conf
  {
    var base := Split(conf);
    GlobalFirstAgrees(conf, mk, gk, reference, selector, tp);
    JoinSplit(conf);
    ImportedText(base, mk, gk, reference, selector);
    var items := EditedItems(base, mk, gk, reference, selector, tp);
    ReapplyIsApply(items, base, mk, gk, reference, selector, tp');
    StripText(items, mk, {mk, gk});
    DropSound(items, mk, {mk, gk});
    StripText(Drop(items, mk), gk, {mk, gk});
  }

  // ---------- without a selector ----------

  lemma GlobalIsSite(gk: Marks, tp: string, rest: seq<string>)
    requires KeyMarks(gk)
    ensures FirstHeader(GlobalLines(gk, tp) + rest, SiteMatcher("")) == 1
  {
    var g, m := GlobalLines(gk, tp), SiteMatcher("");
    MarkAlone(gk);
    assert TrimSpace("{") == "{";
    assert !m(g[0]) && m(g[1]);
    assert (g + rest)[1..][0] == g[1];
  }

  lemma ImportInsideGlobal(mk: Marks, gk: Marks, reference: string, tp: string)
    requires EditOk(mk, gk, reference) && PlainLine(tp)
    ensures Wrapped(InsertLines(GlobalLines(gk, tp), 2, Block(mk, [reference], "\t")), gk)
  {
    GlobalSound(mk, gk, tp);
    ImportSound(mk, gk, reference);
    var g, b := GlobalLines(gk, tp), Block(mk, [reference], "\t");
    var r := InsertLines(g, 2, b);
    assert gk in {mk, gk} - {mk};
    forall i | 0 < i < |r| - 1 ensures OneLine(r[i]) && !IsEnd(r[i], gk) {
      if 2 <= i < 5 {
        assert r[i] == b[i - 2];
      } else {
        assert r[i] == g[if i < 2 then i else i - 3];
      }
    }
  }

  lemma StripFront(front: seq<string>, base: seq<string>, gk: Marks)
    requires Wrapped(front, gk) && base != [] && AllOneLine(base) && NoMarks(base, gk)
    ensures Strip(Join(front + base), gk) == Join(base)
  {
    AtTheFront(base, front);
    SplitJoin(front + base);
    StripInserted(base, 0, front, gk);
  }

  lemma AtTheFront(base: seq<string>, front: seq<string>)
    ensures InsertLines(base, 0, front) == front + base
  {
  }

  lemma InsertedFront(outer: seq<string>, at: nat, block: seq<string>, base: seq<string>)
    requires at <= |outer|
    ensures InsertLines(outer + base, at, block) == InsertLines(outer, at, block) + base
  {
  }

  /** The import placed into a file that begins with the managed global block is stripped with it. */
  lemma ImportStripped(base: seq<string>, mk: Marks, gk: Marks, reference: string, tp: string)
    requires EditOk(mk, gk, reference) && PlainLine(tp)
    requires base != [] && AllOneLine(base) && NoMarks(base, gk)
    ensures var placed := Place(Join(GlobalLines(gk, tp) + base), Block(mk, [reference], "\t"), "", SiteMatcher(""));
            placed.Ok? && Strip(placed.value, gk) == Join(base)
  {
    GlobalOneLine(mk, gk, tp);
    SplitJoin(GlobalLines(gk, tp) + base);
    GlobalIsSite(gk, tp, base);
    ImportInsideGlobal(mk, gk, reference, tp);
    InsertedFront(GlobalLines(gk, tp), 2, Block(mk, [reference], "\t"), base);
    StripFront(InsertLines(GlobalLines(gk, tp), 2, Block(mk, [reference], "\t")), base, gk);
  }

  lemma GlobalOneLine(mk: Marks, gk: Marks, tp: string)
    requires KeyMarks(mk) && KeyMarks(gk) && Apart(mk, gk) && PlainLine(tp)
    ensures AllOneLine(GlobalLines(gk, tp))
  {
    GlobalSound(mk, gk, tp);
  }

  lemma PrependedResult(base: seq<string>, mk: Marks, gk: Marks, reference: string, tp: string)
    requires EditOk(mk, gk, reference) && PlainLine(tp)
    requires base != [] && AllOneLine(base) && NoMarks(base, mk) && NoMarks(base, gk)
    requires !GlobalAfterImport(Join(base), mk, reference, "")
    requires Inject(Join(base), mk, gk, reference, "", Some(tp)).Ok?
    ensures var r := Inject(Join(base), mk, gk, reference, "", Some(tp)).value;
            && Strip(r, mk) == Join(GlobalLines(gk, tp) + base)
            && Strip(r, gk) == Join(Render(Imported(base, mk, reference, "")))
  {
    ImportedText(base, mk, gk, reference, "");
    InjectBare(base, mk, gk, reference, "", tp);
    BareOver(base, mk, gk, "");
    ImportedOver(base, mk, gk, reference, "");
    PrependedStrips(Owned(gk, GlobalLines(gk, tp)), base, mk, gk, reference, tp);
  }

  lemma PrependedStrips(g: Item, base: seq<string>, mk: Marks, gk: Marks, reference: string, tp: string)
    requires EditOk(mk, gk, reference) && PlainLine(tp) && g == Owned(gk, GlobalLines(gk, tp)) && base != []
    requires Over(Imported(base, mk, reference, ""), base, mk, gk, "")
    ensures var r := GlobalText(gk, tp) + Join(Render(Imported(base, mk, reference, "")));
            && Strip(r, mk) == Join(g.block + base)
            && Strip(r, gk) == Join(Render(Imported(base, mk, reference, "")))
  {
    var imported := Imported(base, mk, reference, "");
    PrependedText(imported, base, mk, gk, reference, tp);
    StripText([g] + imported, mk, {mk, gk});
    StripText([g] + imported, gk, {mk, gk});
    DropPrepended(g, base, mk, gk, reference);
    assert ([g] + AsItems(base))[1..] == AsItems(base);
    assert Drop([g] + imported, gk) == Drop(imported, gk) by { assert ([g] + imported)[1..] == imported; }
    DropBelow(AsItems(base), Import(mk, reference), SiteMatcher(""), gk);
    DropNothing(base, gk);
  }

  /** Without a selector and with the global block prepended, the block's own bare `{` is the first
      header on re-apply: the import lands inside it and is stripped with it, so it is lost. */
  lemma NoSelectorLosesImport(conf: string, mk: Marks, gk: Marks, reference: string, tp: string, tp': string)
    requires EditOk(mk, gk, reference) && PlainLine(tp)
    requires NoMarks(Split(conf), mk) && NoMarks(Split(conf), gk)
    requires !GlobalFirst(conf)
    requires Inject(conf, mk, gk, reference, "", Some(tp)).Ok?
    ensures var r := Inject(conf, mk, gk, reference, "", Some(tp)).value;
            Inject(r, mk, gk, reference, "", Some(tp')) == AddTrustedProxies(conf, gk, tp')
  {
    GlobalFirstAgrees(conf, mk, gk, reference, "", tp);
    JoinSplit(conf);
    PrependedResult(Split(conf), mk, gk, reference, tp);
    ImportStripped(Split(conf), mk, gk, reference, tp);
  }

  lemma MergedIsStripped(base: seq<string>, mk: Marks, gk: Marks, tp: string)
    requires KeyMarks(mk) && KeyMarks(gk) && Apart(mk, gk) && PlainLine(tp)
    requires base != [] && AllOneLine(base) && NoMarks(base, gk) && HasHeader(base, BareBrace())
    ensures Strip(Join(InsertLines(base, FirstHeader(base, BareBrace()) + 1, MergedLines(gk, tp))), gk) == Join(base)
  {
    SplitJoin(base);
    StripMarkerFree(Join(base), gk);
    MergedSound(mk, gk, tp);
    StripUndoesInsert(Join(base), gk, FirstHeader(base, BareBrace()) + 1, MergedLines(gk, tp));
  }

  lemma PrependedIsStripped(base: seq<string>, mk: Marks, gk: Marks, tp: string)
    requires KeyMarks(mk) && KeyMarks(gk) && Apart(mk, gk) && PlainLine(tp)
    requires base != [] && AllOneLine(base) && NoMarks(base, gk)
    ensures Strip(GlobalText(gk, tp) + Join(base), gk) == Join(base)
  {
    GlobalSound(mk, gk, tp);
    JoinGlobal(gk, tp);
    JoinConcat(GlobalLines(gk, tp), base);
    StripFront(GlobalLines(gk, tp), base, gk);
  }

  /** Adding the global block to a file without its marks is undone by stripping it. */
  lemma AddedIsStripped(base: seq<string>, mk: Marks, gk: Marks, tp: string)
    requires KeyMarks(mk) && KeyMarks(gk) && Apart(mk, gk) && PlainLine(tp)
    requires base != [] && AllOneLine(base) && NoMarks(base, gk)
    requires AddTrustedProxies(Join(base), gk, tp).Ok?
    ensures Strip(AddTrustedProxies(Join(base), gk, tp).value, gk) == Join(base)
  {
    SplitJoin(base);
    if HasGlobalBlock(Join(base)) {
      MergedIsStripped(base, mk, gk, tp);
    } else {
      PrependedIsStripped(base, mk, gk, tp);
    }
  }

  lemma ImportAddsLines(base: seq<string>, mk: Marks, gk: Marks, reference: string)
    requires EditOk(mk, gk, reference) && base != [] && AllOneLine(base)
    requires NoMarks(base, mk) && NoMarks(base, gk) && HasHeader(base, SiteMatcher(""))
    ensures Join(Render(Imported(base, mk, reference, ""))) != Join(base)
  {
    BareOver(base, mk, gk, "");
    ImportedOver(base, mk, gk, reference, "");
    PlaceIsBelow(AsItems(base), Import(mk, reference), SiteMatcher(""));
    SoundRender(Imported(base, mk, reference, ""), {mk, gk});
    SplitJoin(Render(Imported(base, mk, reference, "")));
    SplitJoin(base);
  }

  /** When a real_ip edit of a mark-free Caddyfile is stable under re-apply: exactly when there is a
      selector, or the file after the import begins with a global block. */
  lemma RealIPStableExactly(conf: string, mk: Marks, gk: Marks, reference: string, selector: string, tp: string)
    requires EditOk(mk, gk, reference) && PlainLine(tp)
    requires NoMarks(Split(conf), mk) && NoMarks(Split(conf), gk)
    requires Inject(conf, mk, gk, reference, selector, Some(tp)).Ok?
    ensures var r := Inject(conf, mk, gk, reference, selector, Some(tp)).value;
            Inject(r, mk, gk, reference, selector, Some(tp)) == Ok(r)
            <==> selector != "" || GlobalFirst(conf)
  {
    GlobalFirstAgrees(conf, mk, gk, reference, selector, tp);
    if selector != "" || GlobalFirst(conf) {
      TwoKeyCycle(conf, mk, gk, reference, selector, tp, tp);
    } else {
      var base := Split(conf);
      JoinSplit(conf);
      NoSelectorLosesImport(conf, mk, gk, reference, tp, tp);
      PrependedResult(base, mk, gk, reference, tp);
      InjectBare(base, mk, gk, reference, "", tp);
      ImportAddsLines(base, mk, gk, reference);
      if AddTrustedProxies(conf, gk, tp).Ok? {
        AddedIsStripped(base, mk, gk, tp);
      }
    }
  }

  lemma PrependedText(items: seq<Item>, base: seq<string>, mk: Marks, gk: Marks, reference: string, tp: string)
    requires EditOk(mk, gk, reference) && PlainLine(tp)
    requires base != [] && BaseLines(items) == base && Sound(items, {mk, gk})
    ensures Join(Render([Owned(gk, GlobalLines(gk, tp))] + items)) == GlobalText(gk, tp) + Join(Render(items))
    ensures Sound([Owned(gk, GlobalLines(gk, tp))] + items, {mk, gk})
    ensures BaseLines([Owned(gk, GlobalLines(gk, tp))] + items) == base
  {
    var g := Owned(gk, GlobalLines(gk, tp));
    assert ([g] + items)[1..] == items;
    GlobalSound(mk, gk, tp);
    SoundRender(items, {mk, gk});
    JoinConcat(GlobalLines(gk, tp), Render(items));
    JoinGlobal(gk, tp);
  }

  lemma DropPrepended(g: Item, base: seq<string>, mk: Marks, gk: Marks, reference: string)
    requires g.Owned? && g.mk == gk != mk
    ensures Drop([g] + Imported(base, mk, reference, ""), mk) == [g] + AsItems(base)
  {
    var imported := Imported(base, mk, reference, "");
    assert ([g] + imported)[1..] == imported;
    DropBelow(AsItems(base), Import(mk, reference), SiteMatcher(""), mk);
    DropNothing(base, mk);
  }
}
