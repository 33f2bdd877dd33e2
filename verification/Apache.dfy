/** The Apache engine's two edits: an Include appended to the file, or inserted into a virtual host. */
module Apache {
  import opened Text
  import opened ManagedBlocks

  // ---------- appending (no selector) ----------

  function TrimNewlines(s: string): (r: string) {
    if s != "" && s[|s| - 1] == '\n' then TrimNewlines(s[..|s| - 1]) else s
  }

  function Appended(src: string, mk: Marks, reference: string): (r: string) {
    src + "\n" + "\n" + mk.begin + "\n" + reference + "\n" + mk.end + "\n"
  }

  /** appendInclude; the selector plays no part. */
  function AppendInclude(conf: string, mk: Marks, reference: string): (r: string) {
    Appended(TrimNewlines(Strip(conf, mk)), mk, reference)
  }

  lemma {:induction false} TrimNewlinesNoMarks(s: string, mk: Marks)
    requires NoMarks(Split(s), mk)
    ensures NoMarks(Split(TrimNewlines(s)), mk)
  {
    if s != "" && s[|s| - 1] == '\n' {
      var t := s[..|s| - 1];
      assert s == t + "\n" + "";
      SplitConcat(t, "");
      assert forall i :: 0 <= i < |Split(t)| ==> Split(s)[i] == Split(t)[i];
      TrimNewlinesNoMarks(t, mk);
    }
  }

  lemma {:induction false} TrimNewlinesOf(s: string, n: nat)
    ensures TrimNewlines(s + Newlines(n)) == TrimNewlines(s)
  {
    if n == 0 {
      assert s + Newlines(0) == s;
    } else {
      assert s + Newlines(n) == s + Newlines(n - 1) + "\n";
      assert (s + Newlines(n))[..|s + Newlines(n)| - 1] == s + Newlines(n - 1);
      TrimNewlinesOf(s, n - 1);
    }
  }

  function Newlines(n: nat): (r: string)
    ensures |r| == n && forall i :: 0 <= i < n ==> r[i] == '\n'
  {
    seq(n, _ => '\n')
  }

  lemma {:induction false} TrimmedPart(s: string)
    ensures exists n: nat :: s == TrimNewlines(s) + Newlines(n)
    ensures TrimNewlines(TrimNewlines(s)) == TrimNewlines(s)
  {
    if s != "" && s[|s| - 1] == '\n' {
      TrimmedPart(s[..|s| - 1]);
      var n: nat :| s[..|s| - 1] == TrimNewlines(s) + Newlines(n);
      assert s == TrimNewlines(s) + Newlines(n + 1);
    } else {
      assert s == s + Newlines(0);
    }
  }

  /** The lines after the text: an empty one, the block, and what follows the last newline. */
  function Tail(mk: Marks, reference: string): (r: seq<string>) {
    ["", mk.begin, reference, mk.end, ""]
  }

  lemma JoinTail(mk: Marks, reference: string)
    ensures Join(Tail(mk, reference)) == "\n" + mk.begin + "\n" + reference + "\n" + mk.end + "\n"
  {
    var t := Tail(mk, reference);
    assert Join(t[3..]) == mk.end + "\n" + "" by { assert t[3..][1..] == [""]; }
    assert Join(t[2..]) == reference + "\n" + Join(t[3..]) by { assert t[2..][1..] == t[3..]; }
    assert Join(t[1..]) == mk.begin + "\n" + Join(t[2..]) by { assert t[1..][1..] == t[2..]; }
  }

  lemma AppendedLines(src: string, mk: Marks, reference: string)
    requires OneLine(mk.begin) && OneLine(mk.end) && OneLine(reference)
    ensures Split(Appended(src, mk, reference)) == Split(src) + Tail(mk, reference)
  {
    JoinTail(mk, reference);
    JoinSplit(src);
    JoinConcat(Split(src), Tail(mk, reference));
    assert Appended(src, mk, reference) == Join(Split(src)) + "\n" + Join(Tail(mk, reference));
    SplitJoin(Split(src) + Tail(mk, reference));
  }

  lemma MarkLines(mk: Marks)
    ensures IsBegin(mk.begin, mk) && IsEnd(mk.end, mk)
  {
    TrimPadded("", mk.begin);
    TrimPadded("", mk.end);
    assert "" + mk.begin == mk.begin && "" + mk.end == mk.end;
  }

  lemma StripTail(ls: seq<string>, mk: Marks, reference: string)
    requires NoMarks(ls, mk) && OneLine(mk.begin) && OneLine(mk.end) && Foreign(reference, mk)
    ensures StripLines(ls + Tail(mk, reference), mk, false) == ls + ["", ""]
  {
    var block := [mk.begin, reference, mk.end];
    var bare := ls + ["", ""];
    assert bare[..|ls| + 1] == ls + [""] && bare[|ls| + 1..] == [""];
    assert ls + Tail(mk, reference) == InsertLines(bare, |ls| + 1, block);
    MarkLines(mk);
    assert "" + reference == reference;
    ForeignIsNoMark("", reference, mk);
    StripInserted(bare, |ls| + 1, block, mk);
  }

  /** Removing the appended block leaves the stripped text with its trailing newlines replaced by two. */
  lemma AppendThenStrip(conf: string, mk: Marks, reference: string)
    requires OneLine(mk.begin) && OneLine(mk.end) && Foreign(reference, mk)
    ensures Strip(AppendInclude(conf, mk, reference), mk) == TrimNewlines(Strip(conf, mk)) + "\n\n"
  {
    var src := TrimNewlines(Strip(conf, mk));
    StripClean(conf, mk);
    TrimNewlinesNoMarks(Strip(conf, mk), mk);
    AppendedLines(src, mk, reference);
    StripTail(Split(src), mk, reference);
    JoinConcat(Split(src), ["", ""]);
    JoinSplit(src);
    assert Join(["", ""]) == "\n";
    assert src + "\n" + "\n" == src + "\n\n";
  }

  /** A second append changes nothing, for every file. */
  lemma AppendIdempotent(conf: string, mk: Marks, reference: string)
    requires OneLine(mk.begin) && OneLine(mk.end) && Foreign(reference, mk)
    ensures AppendInclude(AppendInclude(conf, mk, reference), mk, reference) == AppendInclude(conf, mk, reference)
  {
    AppendThenStrip(conf, mk, reference);
    var src := TrimNewlines(Strip(conf, mk));
    assert "\n\n" == Newlines(2);
    TrimNewlinesOf(src, 2);
    TrimmedPart(Strip(conf, mk));
  }

  function TrailingNewlines(s: string): (n: int) {
    |s| - |TrimNewlines(s)|
  }

  /** Removal gives a mark-free file back up to its trailing newlines, and byte for byte exactly when
      the file ended in exactly two of them. */
  lemma AppendRemovalExactly(conf: string, mk: Marks, reference: string)
    requires OneLine(mk.begin) && OneLine(mk.end) && Foreign(reference, mk)
    requires NoMarks(Split(conf), mk)
    ensures var back := Strip(AppendInclude(conf, mk, reference), mk);
            && TrimNewlines(back) == TrimNewlines(conf)
            && (back == conf <==> TrailingNewlines(conf) == 2)
  {
    AppendThenStrip(conf, mk, reference);
    StripMarkerFree(conf, mk);
    var src := TrimNewlines(conf);
    assert "\n\n" == Newlines(2);
    TrimNewlinesOf(src, 2);
    TrimmedPart(conf);
    var n: nat :| conf == src + Newlines(n);
  }

  // ---------- inserting into a virtual host ----------

  /** What a line is to the search for a virtual host. */
  datatype Kind = Opens | Closes | Names | Other

  function KindOf(line: string, selector: string): (r: Kind) {
    var trimmed := TrimSpace(line);
    var low := ToLower(trimmed);
    if HasPrefix(low, "<virtualhost") then Opens
    else if HasPrefix(low, "</virtualhost") then Closes
    else if (HasPrefix(low, "servername") || HasPrefix(low, "serveralias"))
        && Lists(Fields(trimmed), selector) then Names
    else Other
  }

  /** The selector is one of the fields after the first. */
  predicate Lists(fields: seq<string>, selector: string) {
    exists k :: 1 <= k < |fields| && fields[k] == selector
  }

  function Kinds(ls: seq<string>, selector: string): (r: seq<Kind>)
    ensures |r| == |ls|
  {
    if ls == [] then [] else [KindOf(ls[0], selector)] + Kinds(ls[1..], selector)
  }

  /** Line o opens the virtual host that line j is in. */
  predicate HostOf(ks: seq<Kind>, o: int, j: int) {
    && 0 <= o < j < |ks| && ks[o].Opens?
    && forall k :: o < k <= j ==> !ks[k].Opens? && !ks[k].Closes?
  }

  /** j is the first line naming the selector inside a virtual host, and o opens that host. */
  ghost predicate Selected(ks: seq<Kind>, o: int, j: int) {
    && HostOf(ks, o, j) && ks[j].Names?
    && forall o', j' :: HostOf(ks, o', j') && ks[j'].Names? ==> j <= j'
  }

  function LeadingWhitespace(s: string): (r: string)
    ensures AllSpace(r) && OneLine(r) && r <= s
  {
    var p := c => c != ' ' && c != '\t';
    FirstIndexMeaning(s, p);
    s[..FirstIndex(s, p)]
  }

  function HostBlock(line: string, mk: Marks, reference: string): (r: seq<string>) {
    Block(mk, [reference], LeadingWhitespace(line) + "    ")
  }

  function NoHost(selector: string): (r: string) {
    "no <VirtualHost> with ServerName/ServerAlias " + selector + " (set config.file to the vhost file?)"
  }

  /** The line that opens the selected host. */
  ghost function HostLine(ks: seq<Kind>): (r: Option<nat>)
    ensures r.Some? ==> r.value < |ks|
  {
    if exists o, j :: Selected(ks, o, j) then
      var o, j :| Selected(ks, o, j);
      Some(o)
    else None
  }

  /** Insertion below the line that opens the host of the first line naming the selector. */
  ghost function VhostPlace(src: string, mk: Marks, reference: string, selector: string): (r: Result<string>) {
    var ls := Split(src);
    var at := HostLine(Kinds(ls, selector));
    if at.Some? then Ok(Join(InsertLines(ls, at.value + 1, HostBlock(ls[at.value], mk, reference))))
    else Err(NoHost(selector))
  }

  ghost function VhostInject(conf: string, mk: Marks, reference: string, selector: string): (r: Result<string>) {
    VhostPlace(Strip(conf, mk), mk, reference, selector)
  }

  lemma SelectedUnique(ks: seq<Kind>, o: int, j: int, o': int, j': int)
    requires Selected(ks, o, j) && Selected(ks, o', j')
    ensures o == o' && j == j'
  {
    assert j == j';
  }

  method ListsSelector(fields: seq<string>, selector: string) returns (b: bool)
    ensures b == Lists(fields, selector)
  {
    var k := 1;
    while k < |fields|
      invariant forall k' :: 1 <= k' < k && k' < |fields| ==> fields[k'] != selector
    {
      if fields[k] == selector {
        return true;
      }
      k := k + 1;
    }
    return false;
  }

  /** What a line is to the search: the cases of the loop's switch. */
  method Classify(line: string, selector: string) returns (kind: Kind)
    ensures kind == KindOf(line, selector)
  {
    var trimmed := TrimSpace(line);
    var low := ToLower(trimmed);
    if HasPrefix(low, "<virtualhost") {
      return Opens;
    }
    if HasPrefix(low, "</virtualhost") {
      return Closes;
    }
    if HasPrefix(low, "servername") || HasPrefix(low, "serveralias") {
      var listed := ListsSelector(Fields(trimmed), selector);
      return if listed then Names else Other;
    }
    return Other;
  }

  /** ks are the kinds of the lines. */
  ghost predicate Kinded(lines: seq<string>, selector: string, ks: seq<Kind>) {
    && |ks| == |lines|
    && forall i {:trigger KindOf(lines[i], selector)} :: 0 <= i < |lines| ==> ks[i] == KindOf(lines[i], selector)
  }

  lemma {:induction false} KindsAreKinds(ls: seq<string>, selector: string)
    ensures Kinded(ls, selector, Kinds(ls, selector))
  {
    if ls != [] {
      KindsAreKinds(ls[1..], selector);
      forall i | 0 <= i < |ls| ensures Kinds(ls, selector)[i] == KindOf(ls[i], selector) {
        assert i > 0 ==> KindOf(ls[1..][i - 1], selector) == KindOf(ls[i], selector);
      }
    }
  }

  /** Which line opens the selected host, if any. */
  method FindHost(lines: seq<string>, selector: string) returns (found: bool, open: int)
    ensures found ==> exists j :: Selected(Kinds(lines, selector), open, j)
    ensures !found ==> forall o, j :: !Selected(Kinds(lines, selector), o, j)
  {
    KindsAreKinds(lines, selector);
    found, open := SearchHost(lines, selector, Kinds(lines, selector));
  }

  /** The search loop. */
  method SearchHost(lines: seq<string>, selector: string, ghost ks: seq<Kind>) returns (found: bool, open: int)
    requires Kinded(lines, selector, ks)
    ensures found ==> exists j :: Selected(ks, open, j)
    ensures !found ==> forall o, j :: !Selected(ks, o, j)
  {
    open := -1;
    for i := 0 to |lines|
      invariant OpenAt(ks, open, i) && Unnamed(ks, i)
    {
      var kind := Classify(lines[i], selector);
      assert ks[i] == kind;
      OnlyHost(ks, open, i);
      if kind.Opens? {
        open := i;
      } else if kind.Closes? {
        open := -1;
      } else if open >= 0 && kind.Names? {
        IsSelected(ks, open, i);
        return true, open;
      }
    }
    return false, open;
  }

  /** No line before i names the selector inside a host. */
  ghost predicate Unnamed(ks: seq<Kind>, i: int) {
    forall o, j :: HostOf(ks, o, j) && j < i ==> !ks[j].Names?
  }

  lemma IsSelected(ks: seq<Kind>, open: int, i: nat)
    requires i < |ks| && OpenAt(ks, open, i) && Unnamed(ks, i) && open >= 0 && ks[i].Names?
    ensures Selected(ks, open, i)
  {
    assert HostOf(ks, open, i);
  }

  /** The `open` variable before line i: the host that is open there, or -1. */
  predicate OpenAt(ks: seq<Kind>, open: int, i: int) {
    && i <= |ks| && -1 <= open < i
    && (open >= 0 ==> ks[open].Opens? && forall k :: open < k < i ==> !ks[k].Opens? && !ks[k].Closes?)
    && (open == -1 ==> forall o :: 0 <= o < i && ks[o].Opens? ==> exists k :: o < k < i && ks[k].Closes?)
  }

  /** At most one host is open at a line. */
  lemma OnlyHost(ks: seq<Kind>, open: int, i: nat)
    requires i < |ks| && OpenAt(ks, open, i)
    ensures forall o :: HostOf(ks, o, i) ==> o == open
    ensures ks[i].Opens? ==> OpenAt(ks, i, i + 1)
    ensures ks[i].Closes? ==> OpenAt(ks, -1, i + 1)
    ensures !ks[i].Opens? && !ks[i].Closes? ==> OpenAt(ks, open, i + 1)
  {
    forall o | HostOf(ks, o, i) ensures o == open {
      if open == -1 {
        assert false;
      }
    }
    if !ks[i].Opens? && open == -1 {
      forall o | 0 <= o < i + 1 && ks[o].Opens? ensures exists k :: o < k < i + 1 && ks[k].Closes? {
        var k :| o < k < i && ks[k].Closes?;
      }
    }
  }

  method InjectVhost(conf: string, mk: Marks, reference: string, selector: string) returns (r: Result<string>)
    ensures r == VhostInject(conf, mk, reference, selector)
  {
    var src := StripManaged(conf, mk);
    r := PlaceInHost(src, mk, reference, selector);
  }

  method PlaceInHost(src: string, mk: Marks, reference: string, selector: string) returns (r: Result<string>)
    ensures r == VhostPlace(src, mk, reference, selector)
  {
    var lines := Split(src);
    var found, open := FindHost(lines, selector);
    HostLineIs(Kinds(lines, selector), found, open);
    if !found {
      return Err(NoHost(selector));
    }
    r := InsertAfterLine(lines, open, mk, reference);
  }

  lemma HostLineIs(ks: seq<Kind>, found: bool, open: int)
    requires found ==> exists j :: Selected(ks, open, j)
    requires !found ==> forall o, j :: !Selected(ks, o, j)
    ensures found ==> HostLine(ks) == Some(open)
    ensures !found ==> HostLine(ks) == None
  {
    if found {
      var j :| Selected(ks, open, j);
      var o', j' :| Selected(ks, o', j') && HostLine(ks) == Some(o');
      SelectedUnique(ks, open, j, o', j');
    }
  }

  method InsertAfterLine(lines: seq<string>, at: int, mk: Marks, reference: string) returns (r: Result<string>)
    requires 0 <= at < |lines|
    ensures r == Ok(Join(InsertLines(lines, at + 1, HostBlock(lines[at], mk, reference))))
  {
    var indent := LeadingWhitespace(lines[at]) + "    ";
    assert Indented([reference], indent) == [indent + reference];
    var block := [indent + mk.begin, indent + reference, indent + mk.end];
    assert block == HostBlock(lines[at], mk, reference);
    r := Ok(Join(lines[..at + 1] + block + lines[at + 1..]));
  }

  lemma HostBlockWrapped(line: string, mk: Marks, reference: string)
    requires OneLine(mk.begin) && OneLine(mk.end) && Foreign(reference, mk)
    ensures Wrapped(HostBlock(line, mk, reference), mk)
  {
    ForeignIsNoMark(LeadingWhitespace(line) + "    ", reference, mk);
    BlockWrapped(mk, [reference], LeadingWhitespace(line) + "    ");
  }

  /** What the insertion adds is what strip removes, so a second insertion gives the same text. */
  lemma VhostThenStrip(conf: string, mk: Marks, reference: string, selector: string)
    requires OneLine(mk.begin) && OneLine(mk.end) && Foreign(reference, mk)
    requires VhostInject(conf, mk, reference, selector).Ok?
    ensures var r := VhostInject(conf, mk, reference, selector).value;
            && Strip(r, mk) == Strip(conf, mk)
            && (NoMarks(Split(conf), mk) ==> Strip(r, mk) == conf)
            && VhostInject(r, mk, reference, selector) == Ok(r)
  {
    var at := PlacedAt(Strip(conf, mk), mk, reference, selector);
    var line := Split(Strip(conf, mk))[at];
    HostBlockWrapped(line, mk, reference);
    StripUndoesInsert(conf, mk, at + 1, HostBlock(line, mk, reference));
    if NoMarks(Split(conf), mk) {
      StripMarkerFree(conf, mk);
    }
  }

  lemma PlacedAt(src: string, mk: Marks, reference: string, selector: string) returns (o: nat)
    requires VhostPlace(src, mk, reference, selector).Ok?
    ensures o < |Split(src)|
    ensures VhostPlace(src, mk, reference, selector)
            == Ok(Join(InsertLines(Split(src), o + 1, HostBlock(Split(src)[o], mk, reference))))
  {
    o := HostLine(Kinds(Split(src), selector)).value;
  }
}
