/** Provider lists: reading, merging, adding the operator's own ranges, and the text that is hashed. */
module Fetcher {
  import opened Text
  import opened Policy

  /** The lists of one or more providers; the hash identifies their content. */
  datatype CIDRs = CIDRs(provider: string, v4: seq<string>, v6: seq<string>, hash: string)

  type Digest = string -> string

  // ---------- order of strings ----------

  predicate Less(a: string, b: string) {
    if b == [] then false
    else if a == [] then true
    else a[0] < b[0] || (a[0] == b[0] && Less(a[1..], b[1..]))
  }

  predicate Ascending(ls: seq<string>) {
    forall i, j :: 0 <= i < j < |ls| ==> Less(ls[i], ls[j])
  }

  predicate Sorted(ls: seq<string>) {
    forall i, j :: 0 <= i < j < |ls| ==> !Less(ls[j], ls[i])
  }

  lemma {:induction false} LessIrreflexive(a: string)
    ensures !Less(a, a)
  {
    if a != [] {
      LessIrreflexive(a[1..]);
    }
  }

  lemma {:induction false} LessTotal(a: string, b: string)
    ensures Less(a, b) || a == b || Less(b, a)
    ensures !(Less(a, b) && Less(b, a)) && !Less(a, a)
  {
    LessIrreflexive(a);
    if a != [] && b != [] && a[0] == b[0] {
      LessTotal(a[1..], b[1..]);
      assert a == [a[0]] + a[1..] && b == [b[0]] + b[1..];
    }
  }

  lemma {:induction false} LessTrans(a: string, b: string, c: string)
    requires Less(a, b) && Less(b, c)
    ensures Less(a, c)
  {
    if a != [] && a[0] == b[0] && b[0] == c[0] {
      LessTrans(a[1..], b[1..], c[1..]);
    }
  }

  lemma {:induction false} NotLessTrans(a: string, b: string, c: string)
    requires !Less(b, a) && !Less(c, b)
    ensures !Less(c, a)
  {
    LessTotal(a, b);
    LessTotal(b, c);
    LessTotal(a, c);
    if a != b && b != c {
      LessTrans(a, b, c);
    }
  }

  /** A set has only one ascending listing. */
  lemma {:induction false} AscendingUnique(a: seq<string>, b: seq<string>)
    requires Ascending(a) && Ascending(b)
    requires forall x :: x in a <==> x in b
    ensures a == b
  {
    if a == [] || b == [] {
      NonemptyToo(a, b);
      NonemptyToo(b, a);
    } else {
      SameHead(a, b);
      forall x ensures x in a[1..] <==> x in b[1..] {
        RestExcludes(a, x);
        RestExcludes(b, x);
      }
      AscendingUnique(a[1..], b[1..]);
      assert a == [a[0]] + a[1..] && b == [b[0]] + b[1..];
    }
  }

  lemma NonemptyToo(a: seq<string>, b: seq<string>)
    requires forall x :: x in a ==> x in b
    ensures a != [] ==> b != []
  {
    if a != [] {
      assert a[0] in b;
    }
  }

  lemma SameHead(a: seq<string>, b: seq<string>)
    requires Ascending(a) && Ascending(b) && a != [] && b != []
    requires forall x :: x in a <==> x in b
    ensures a[0] == b[0]
  {
    assert a[0] in b && b[0] in a;
    var i :| 0 <= i < |b| && b[i] == a[0];
    var j :| 0 <= j < |a| && a[j] == b[0];
    LessTotal(a[0], b[0]);
  }

  lemma RestExcludes(a: seq<string>, x: string)
    requires Ascending(a) && a != []
    ensures x in a[1..] <==> x in a && x != a[0]
  {
    LessTotal(a[0], a[0]);
    if x in a && x != a[0] {
      var i :| 0 <= i < |a| && a[i] == x;
      assert a[1..][i - 1] == x;
    }
  }

  /** The keys of a set, ascending. */
  method SortedKeys(keys: set<string>) returns (r: seq<string>)
    ensures Ascending(r) && forall x :: x in r <==> x in keys
  {
    r := [];
    var left := keys;
    while left != {}
      invariant Ascending(r) && left <= keys
      invariant forall x :: x in r <==> x in keys && x !in left
      decreases left
    {
      var x :| x in left;
      r := Insert(r, x);
      left := left - {x};
    }
  }

  method Insert(ls: seq<string>, x: string) returns (r: seq<string>)
    requires Ascending(ls) && x !in ls
    ensures Ascending(r) && forall y :: y in r <==> y in ls || y == x
  {
    var i := 0;
    while i < |ls| && Less(ls[i], x)
      invariant 0 <= i <= |ls|
      invariant forall k :: 0 <= k < i ==> Less(ls[k], x)
    {
      i := i + 1;
    }
    AboveAll(ls, x, i);
    InsertedMembers(ls, x, i);
    InsertedAscends(ls, x, i);
    r := ls[..i] + [x] + ls[i..];
  }

  lemma AboveAll(ls: seq<string>, x: string, i: nat)
    requires Ascending(ls) && x !in ls && i <= |ls| && (i == |ls| || !Less(ls[i], x))
    ensures forall k :: i <= k < |ls| ==> Less(x, ls[k])
  {
    forall k | i <= k < |ls| ensures Less(x, ls[k]) {
      LessTotal(x, ls[i]);
      if i < k {
        LessTrans(x, ls[i], ls[k]);
      }
    }
  }

  lemma InsertedMembers(ls: seq<string>, x: string, i: nat)
    requires i <= |ls|
    ensures forall y :: y in ls[..i] + [x] + ls[i..] <==> y in ls || y == x
  {
    assert ls == ls[..i] + ls[i..];
  }

  lemma InsertedAscends(ls: seq<string>, x: string, i: nat)
    requires Ascending(ls) && i <= |ls|
    requires forall k :: 0 <= k < i ==> Less(ls[k], x)
    requires forall k :: i <= k < |ls| ==> Less(x, ls[k])
    ensures Ascending(ls[..i] + [x] + ls[i..])
  {
    var r := ls[..i] + [x] + ls[i..];
    forall a, b | 0 <= a < b < |r| ensures Less(r[a], r[b]) {
      assert r[a] == if a < i then ls[a] else if a == i then x else ls[a - 1];
      assert r[b] == if b < i then ls[b] else if b == i then x else ls[b - 1];
    }
  }

  // ---------- one list ----------

  /** The answer of the data source for one list: none at all, an HTTP status, or the lines that could be
      read, with the error that ended the reading early, if any (a cut connection, an overlong line). */
  datatype Response =
    | Unreachable(error: string)
    | NotFound
    | Refused(status: string)
    | Body(lines: seq<string>, broken: Option<string>)

  /** A line that counts: not blank and no comment. */
  predicate IsEntry(line: string) {
    TrimSpace(line) != "" && !HasPrefix(TrimSpace(line), "#")
  }

  predicate Malformed(line: string, parse: Parser) {
    IsEntry(line) && parse(TrimSpace(line)).None?
  }

  /** The entries of the lines that are CIDRs, in their order. */
  function Entries(lines: seq<string>, parse: Parser): (r: seq<string>) {
    if lines == [] then []
    else
      (if IsEntry(lines[0]) && parse(TrimSpace(lines[0])).Some? then [TrimSpace(lines[0])] else [])
      + Entries(lines[1..], parse)
  }

  lemma {:induction false} EntriesNext(lines: seq<string>, parse: Parser, n: nat)
    requires n < |lines|
    ensures Entries(lines[..n + 1], parse) == Entries(lines[..n], parse)
            + if IsEntry(lines[n]) && parse(TrimSpace(lines[n])).Some? then [TrimSpace(lines[n])] else []
  {
    if n > 0 {
      assert lines[..n + 1][1..] == lines[1..][..n] && lines[..n][1..] == lines[1..][..n - 1];
      EntriesNext(lines[1..], parse, n - 1);
    } else {
      assert lines[..1][1..] == [] && lines[..0] == [];
    }
  }

  lemma {:induction false} EntriesParse(lines: seq<string>, parse: Parser)
    ensures forall e :: e in Entries(lines, parse) ==> parse(e).Some?
  {
    if lines != [] {
      EntriesParse(lines[1..], parse);
    }
  }

  function EntriesOf(answer: Response, parse: Parser): (r: seq<string>) {
    if answer.Body? then Entries(answer.lines, parse) else []
  }

  /** A list may be missing; one that could not be read to its end is no list, and a malformed line spoils
      it unless such lines may be skipped. */
  predicate Good(answer: Response, parse: Parser, allowMalformed: bool) {
    || answer.NotFound?
    || (&& answer.Body? && answer.broken.None?
        && (allowMalformed || forall i :: 0 <= i < |answer.lines| ==> !Malformed(answer.lines[i], parse)))
  }

  /** The sorted entries, repetitions kept. */
  predicate Listing(answer: Response, parse: Parser, ls: seq<string>) {
    Sorted(ls) && multiset(ls) == multiset(EntriesOf(answer, parse))
  }

  lemma {:induction false} EntryListed(lines: seq<string>, parse: Parser, k: nat)
    requires k < |lines| && IsEntry(lines[k]) && parse(TrimSpace(lines[k])).Some?
    ensures TrimSpace(lines[k]) in Entries(lines, parse)
  {
    if k > 0 {
      EntryListed(lines[1..], parse, k - 1);
    }
  }

  /** Nothing is dropped silently: where malformed lines are not allowed, every line that is neither blank nor a
      comment is in the list. */
  lemma NothingDropped(answer: Response, parse: Parser, ls: seq<string>, k: nat)
    requires answer.Body? && Good(answer, parse, false) && Listing(answer, parse, ls)
    requires k < |answer.lines| && TrimSpace(answer.lines[k]) != "" && !HasPrefix(TrimSpace(answer.lines[k]), "#")
    ensures parse(TrimSpace(answer.lines[k])).Some? && TrimSpace(answer.lines[k]) in ls
  {
    assert !Malformed(answer.lines[k], parse);
    EntryListed(answer.lines, parse, k);
    assert TrimSpace(answer.lines[k]) in multiset(EntriesOf(answer, parse));
    assert TrimSpace(answer.lines[k]) in multiset(ls);
  }

  /** Whatever is listed is a CIDR. */
  lemma ListingParses(answer: Response, parse: Parser, ls: seq<string>)
    requires Listing(answer, parse, ls)
    ensures forall i :: 0 <= i < |ls| ==> parse(ls[i]).Some?
  {
    if answer.Body? {
      EntriesParse(answer.lines, parse);
    }
    forall i | 0 <= i < |ls| ensures parse(ls[i]).Some? {
      assert ls[i] in multiset(ls);
      assert ls[i] in EntriesOf(answer, parse);
    }
  }

  method FetchList(answer: Response, parse: Parser, allowMalformed: bool) returns (r: Result<seq<string>>)
    ensures r.Ok? <==> Good(answer, parse, allowMalformed)
    ensures r.Ok? ==> Listing(answer, parse, r.value)
  {
    if answer.Unreachable? {
      return Err(answer.error);
    }
    if answer.NotFound? {
      return Ok([]);
    }
    if answer.Refused? {
      return Err("unexpected status");
    }
    var out, skipped := ScanLines(answer.lines, parse);
    if answer.broken.Some? {
      return Err(answer.broken.value);
    }
    if skipped > 0 && !allowMalformed {
      return Err("refusing partial data");
    }
    out := SortInPlace(out);
    r := Ok(out);
  }

  /** The entries that are CIDRs, and how many are not. */
  method ScanLines(lines: seq<string>, parse: Parser) returns (out: seq<string>, skipped: nat)
    ensures out == Entries(lines, parse)
    ensures skipped == 0 <==> forall k :: 0 <= k < |lines| ==> !Malformed(lines[k], parse)
  {
    out, skipped := [], 0;
    for i := 0 to |lines|
      invariant out == Entries(lines[..i], parse)
      invariant skipped == 0 <==> forall k :: 0 <= k < i ==> !Malformed(lines[k], parse)
    {
      EntriesNext(lines, parse, i);
      var line := TrimSpace(lines[i]);
      if line == "" || HasPrefix(line, "#") {
        continue;
      }
      if parse(line).None? {
        skipped := skipped + 1;
        assert Malformed(lines[i], parse);
        continue;
      }
      out := out + [line];
    }
    assert lines[..|lines|] == lines;
  }

  /** Sorting, repetitions kept. */
  method SortInPlace(ls: seq<string>) returns (r: seq<string>)
    ensures Sorted(r) && multiset(r) == multiset(ls)
  {
    r := [];
    assert ls[..|ls|] == ls;
    for i := 0 to |ls|
      invariant Sorted(r) && multiset(r) == multiset(ls[..i])
    {
      assert ls[..i + 1] == ls[..i] + [ls[i]];
      r := InsertSorted(r, ls[i]);
    }
  }

  method InsertSorted(ls: seq<string>, x: string) returns (r: seq<string>)
    requires Sorted(ls)
    ensures Sorted(r) && multiset(r) == multiset(ls) + multiset{x}
  {
    var i := 0;
    while i < |ls| && Less(ls[i], x)
      invariant 0 <= i <= |ls|
      invariant forall k :: 0 <= k < i ==> Less(ls[k], x)
    {
      i := i + 1;
    }
    NotBelow(ls, x, i);
    InsertedSorted(ls, x, i);
    InsertedCount(ls, x, i);
    r := ls[..i] + [x] + ls[i..];
  }

  lemma NotBelow(ls: seq<string>, x: string, i: nat)
    requires Sorted(ls) && i <= |ls| && (i == |ls| || !Less(ls[i], x))
    requires forall k :: 0 <= k < i ==> Less(ls[k], x)
    ensures forall k :: 0 <= k < i ==> !Less(x, ls[k])
    ensures forall k :: i <= k < |ls| ==> !Less(ls[k], x)
  {
    forall k | 0 <= k < i ensures !Less(x, ls[k]) {
      LessTotal(x, ls[k]);
    }
    forall k | i <= k < |ls| ensures !Less(ls[k], x) {
      if i < k {
        NotLessTrans(x, ls[i], ls[k]);
      }
    }
  }

  lemma InsertedSorted(ls: seq<string>, x: string, i: nat)
    requires Sorted(ls) && i <= |ls|
    requires forall k :: 0 <= k < i ==> !Less(x, ls[k])
    requires forall k :: i <= k < |ls| ==> !Less(ls[k], x)
    ensures Sorted(ls[..i] + [x] + ls[i..])
  {
    var r := ls[..i] + [x] + ls[i..];
    LessIrreflexive(x);
    forall a, b | 0 <= a < b < |r| ensures !Less(r[b], r[a]) {
      assert r[a] == if a < i then ls[a] else if a == i then x else ls[a - 1];
      assert r[b] == if b < i then ls[b] else if b == i then x else ls[b - 1];
    }
  }

  lemma InsertedCount(ls: seq<string>, x: string, i: nat)
    requires i <= |ls|
    ensures multiset(ls[..i] + [x] + ls[i..]) == multiset(ls) + multiset{x}
  {
    assert ls == ls[..i] + ls[i..];
  }

  // ---------- providers ----------

  /** Every line with its newline: what is fed to the digest. */
  function Lines(ls: seq<string>): (r: string) {
    if ls == [] then "" else ls[0] + "\n" + Lines(ls[1..])
  }

  const SEPARATOR := "--"

  function ContentLines(provider: string, v4: seq<string>, v6: seq<string>): (r: seq<string>) {
    [provider] + v4 + [SEPARATOR] + v6
  }

  function HashOf(digest: Digest, provider: string, v4: seq<string>, v6: seq<string>): (r: string) {
    digest(Lines(ContentLines(provider, v4, v6)))
  }

  function Concat(ls: seq<string>, sep: string): (r: string) {
    if ls == [] then "" else if |ls| == 1 then ls[0] else ls[0] + sep + Concat(ls[1..], sep)
  }

  /** What reading a provider's list of a family gives; see FetchList. */
  type Lists = (string, Family) -> Result<seq<string>>

  predicate Fetchable(lists: Lists, provider: string) {
    && lists(provider, V4).Ok? && lists(provider, V6).Ok?
    && (lists(provider, V4).value != [] || lists(provider, V6).value != [])
  }

  method Fetch(lists: Lists, digest: Digest, provider: string) returns (r: Result<CIDRs>)
    ensures r.Ok? <==> Fetchable(lists, provider)
    ensures r.Ok? ==>
              r.value == CIDRs(provider, lists(provider, V4).value, lists(provider, V6).value,
                               HashOf(digest, provider, lists(provider, V4).value, lists(provider, V6).value))
  {
    var v4 := lists(provider, V4);
    if v4.Err? {
      return Err("v4 list: " + v4.message);
    }
    var v6 := lists(provider, V6);
    if v6.Err? {
      return Err("v6 list: " + v6.message);
    }
    if v4.value == [] && v6.value == [] {
      return Err("returned no CIDRs");
    }
    r := Ok(CIDRs(provider, v4.value, v6.value, HashOf(digest, provider, v4.value, v6.value)));
  }

  function Elements(ls: seq<string>): (r: set<string>) {
    set e | e in ls
  }

  /** The union of the providers' lists of a family. */
  function Offer(lists: Lists, providers: seq<string>, f: Family): (r: set<string>)
    requires forall i :: 0 <= i < |providers| ==> lists(providers[i], f).Ok?
  {
    if providers == [] then {}
    else Offer(lists, providers[..|providers| - 1], f) + Elements(lists(providers[|providers| - 1], f).value)
  }

  lemma {:induction false} OfferMeaning(lists: Lists, providers: seq<string>, f: Family, e: string)
    requires forall i :: 0 <= i < |providers| ==> lists(providers[i], f).Ok?
    ensures e in Offer(lists, providers, f) <==> exists i :: 0 <= i < |providers| && e in lists(providers[i], f).value
  {
    if providers != [] {
      var n := |providers| - 1;
      OfferMeaning(lists, providers[..n], f, e);
      if e in Offer(lists, providers[..n], f) {
        var i :| 0 <= i < n && e in lists(providers[..n][i], f).value;
        assert e in lists(providers[i], f).value;
      }
    }
  }

  predicate AllFetchable(lists: Lists, providers: seq<string>) {
    forall i :: 0 <= i < |providers| ==> Fetchable(lists, providers[i])
  }

  /** The label, the hash, and the union of the providers' lists; ascending, so without repetitions, when
      there are several providers. A single provider's lists are taken as they are. */
  predicate Merged(lists: Lists, digest: Digest, providers: seq<string>, c: CIDRs)
    requires AllFetchable(lists, providers)
  {
    && c.provider == Concat(providers, "+")
    && c.hash == HashOf(digest, c.provider, c.v4, c.v6)
    && Elements(c.v4) == Offer(lists, providers, V4)
    && Elements(c.v6) == Offer(lists, providers, V6)
    && (if |providers| == 1 then c.v4 == lists(providers[0], V4).value && c.v6 == lists(providers[0], V6).value
        else Ascending(c.v4) && Ascending(c.v6))
  }

  method FetchMerged(lists: Lists, digest: Digest, providers: seq<string>) returns (r: Result<CIDRs>)
    ensures r.Ok? <==> providers != [] && AllFetchable(lists, providers)
    ensures r.Ok? ==> Merged(lists, digest, providers, r.value)
  {
    if providers == [] {
      return Err("no providers specified");
    }
    if |providers| == 1 {
      r := Fetch(lists, digest, providers[0]);
      assert providers[..0] == [];
      return;
    }
    var v4set: set<string>, v6set: set<string> := {}, {};
    for i := 0 to |providers|
      invariant AllFetchable(lists, providers[..i])
      invariant v4set == Offer(lists, providers[..i], V4)
      invariant v6set == Offer(lists, providers[..i], V6)
    {
      ghost var longer := providers[..i + 1];
      assert longer[..i] == providers[..i] && longer[i] == providers[i];
      var c := Fetch(lists, digest, providers[i]);
      if c.Err? {
        return Err(c.message);
      }
      v4set := v4set + Elements(c.value.v4);
      v6set := v6set + Elements(c.value.v6);
    }
    assert providers[..|providers|] == providers;
    var v4 := SortedKeys(v4set);
    var v6 := SortedKeys(v6set);
    var name := Concat(providers, "+");
    r := Ok(CIDRs(name, v4, v6, HashOf(digest, name, v4, v6)));
  }

  // ---------- the operator's own ranges ----------

  /** The extra entries of one family. */
  function ExtrasOf(parse: Parser, extra: seq<string>, f: Family): (r: set<string>) {
    set e | e in extra && parse(e).Some? && parse(e).value.family == f
  }

  ghost predicate Extended(c: CIDRs, parse: Parser, digest: Digest, extra: seq<string>, r: CIDRs) {
    && r.provider == c.provider
    && r.hash == HashOf(digest, r.provider, r.v4, r.v6)
    && Ascending(r.v4) && Ascending(r.v6)
    && Elements(r.v4) == Elements(c.v4) + ExtrasOf(parse, extra, V4)
    && Elements(r.v6) == Elements(c.v6) + ExtrasOf(parse, extra, V6)
  }

  method WithExtra(c: CIDRs, parse: Parser, digest: Digest, extra: seq<string>) returns (r: CIDRs)
    ensures Extended(c, parse, digest, extra, r)
  {
    var v4set := Elements(c.v4);
    var v6set := Elements(c.v6);
    for i := 0 to |extra|
      invariant v4set == Elements(c.v4) + ExtrasOf(parse, extra[..i], V4)
      invariant v6set == Elements(c.v6) + ExtrasOf(parse, extra[..i], V6)
    {
      assert extra[..i + 1] == extra[..i] + [extra[i]];
      var p := parse(extra[i]);
      if p.None? {
        continue;
      }
      if p.value.family.V4? {
        v4set := v4set + {extra[i]};
      } else {
        v6set := v6set + {extra[i]};
      }
    }
    assert extra[..|extra|] == extra;
    var v4 := SortedKeys(v4set);
    var v6 := SortedKeys(v6set);
    r := CIDRs(c.provider, v4, v6, HashOf(digest, c.provider, v4, v6));
  }

  /** The policy of a target over fetched lists. */
  function FilterOf(parse: Parser, allow: bool, ports: seq<int>, c: CIDRs): (r: Filter) {
    Filter(allow, ports, NetsOf(parse, c.v4), NetsOf(parse, c.v6))
  }

  /** In allow mode no packet from a listed range is dropped. */
  lemma ListedAdmits(parse: Parser, c: CIDRs, ports: seq<int>, e: string, p: Packet)
    requires e in if p.src.family.V4? then c.v4 else c.v6
    requires parse(e).Some? && Contains(parse(e).value, p.src)
    ensures !FilterOf(parse, true, ports, c).Drops(p)
  {
    var listed := if p.src.family.V4? then c.v4 else c.v6;
    EntryIsNet(parse, listed, e);
    var nets := NetsOf(parse, listed);
    var i :| 0 <= i < |nets| && nets[i] == parse(e).value;
  }

  /** Anti-lockout: in allow mode no packet from one of the operator's own ranges is dropped. */
  lemma AdminNeverDropped(c: CIDRs, parse: Parser, digest: Digest, extra: seq<string>, r: CIDRs, ports: seq<int>,
                          e: string, p: Packet)
    requires Extended(c, parse, digest, extra, r)
    requires e in extra && parse(e).Some? && Contains(parse(e).value, p.src)
    ensures !FilterOf(parse, true, ports, r).Drops(p)
  {
    var listed := if p.src.family.V4? then r.v4 else r.v6;
    assert e in ExtrasOf(parse, extra, p.src.family);
    assert e in listed by { assert e in Elements(listed); }
    ListedAdmits(parse, r, ports, e, p);
  }

  /** Merging in extra ranges never takes a permission away: what allow mode dropped after it was dropped before. */
  lemma ExtraOnlyAdmits(c: CIDRs, parse: Parser, digest: Digest, extra: seq<string>, r: CIDRs, ports: seq<int>,
                        p: Packet)
    requires Extended(c, parse, digest, extra, r)
    ensures FilterOf(parse, true, ports, r).Drops(p) ==> FilterOf(parse, true, ports, c).Drops(p)
  {
    assert forall e :: e in c.v4 ==> e in Elements(r.v4);
    assert forall e :: e in c.v6 ==> e in Elements(r.v6);
    CoverageOfSet(parse, if p.src.family.V4? then c.v4 else c.v6, if p.src.family.V4? then r.v4 else r.v6, p.src);
  }
}
