/** The HAProxy engine's edit: an ACL and a deny rule below the selected frontend line. */
module HAProxy {
  import opened Text
  import opened ManagedBlocks
  import FileItems
  import SharedFile

  /** `-`, `.` and `/` become `_`. */
  function Sanitize(s: string): (r: string)
    ensures |r| == |s|
    ensures forall i :: 0 <= i < |s| ==> r[i] == if s[i] in "-./" then '_' else s[i]
  {
    seq(|s|, i requires 0 <= i < |s| => if s[i] in "-./" then '_' else s[i])
  }

  /** A top-level `frontend` line, with exactly the selected name; the first one if there is no selector. */
  function FrontendMatcher(selector: string): (m: Matcher) {
    line =>
      && !FileItems.StartsWithSpace(line)
      && var fields := Fields(TrimSpace(line));
         && fields != [] && fields[0] == "frontend"
         && (selector == "" || (|fields| >= 2 && fields[1] == selector))
  }

  function RealIPHeader(provider: string): (r: string) {
    if Mentions(provider, "cloudflare") then "CF-Connecting-IP" else "X-Forwarded-For"
  }

  /** s contains p. */
  predicate Mentions(s: string, p: string) {
    exists i :: 0 <= i <= |s| && HasPrefix(s[i..], p)
  }

  function AclLine(acl: string, managedPath: string): (r: string) {
    "acl " + acl + " src -f " + managedPath
  }

  function DenyLine(acl: string, mode: string): (r: string) {
    "http-request deny if " + (if mode == "deny" then acl else "!" + acl)
  }

  function SetSrcLine(header: string): (r: string) {
    "http-request set-src hdr_ip(" + header + ") if { req.hdr(" + header + ") -m found }"
  }

  /** The lines that go into the frontend; provider is absent on removal. */
  function Payload(id: string, mode: string, realIP: bool, provider: Option<string>,
                   managedPath: string): (r: seq<string>) {
    var acl := "ipwatch_" + Sanitize(id);
    [AclLine(acl, managedPath), DenyLine(acl, mode)]
    + if realIP && provider.Some? then ["option forwardfor", SetSrcLine(RealIPHeader(provider.value))] else []
  }

  const INDENT := "    "

  function Inject(conf: string, managedPath: string, payload: seq<string>, selector: string): (r: Result<string>) {
    var mk := MarksOf(managedPath);
    Place(Strip(conf, mk), Block(mk, payload, INDENT), selector, FrontendMatcher(selector))
  }

  lemma MatcherTopLevel(selector: string)
    ensures FileItems.TopLevelOnly(FrontendMatcher(selector))
  {
  }

  lemma SanitizeOneLine(s: string)
    requires OneLine(s)
    ensures OneLine(Sanitize(s))
  {
  }

  lemma AclPlain(acl: string, managedPath: string)
    requires OneLine(acl) && OneLine(managedPath)
    ensures PlainLine(AclLine(acl, managedPath))
  {
    assert OneLine("acl " + acl);
    assert OneLine("acl " + acl + " src -f ");
  }

  lemma DenyPlain(acl: string, mode: string)
    requires OneLine(acl)
    ensures PlainLine(DenyLine(acl, mode))
  {
    assert OneLine("!" + acl);
  }

  lemma SetSrcPlain(header: string)
    requires OneLine(header)
    ensures PlainLine(SetSrcLine(header))
  {
    assert OneLine("http-request set-src hdr_ip(" + header);
    assert OneLine("http-request set-src hdr_ip(" + header + ") if { req.hdr(" + header);
  }

  /** The rendered lines can always be wrapped and are no marks of any target's block. */
  lemma PayloadPlain(id: string, mode: string, realIP: bool, provider: Option<string>, managedPath: string)
    requires OneLine(id) && OneLine(managedPath)
    ensures forall l :: l in Payload(id, mode, realIP, provider, managedPath) ==> PlainLine(l)
  {
    SanitizeOneLine(id);
    var acl := "ipwatch_" + Sanitize(id);
    assert OneLine(acl);
    AclPlain(acl, managedPath);
    DenyPlain(acl, mode);
    if realIP && provider.Some? {
      SetSrcPlain(RealIPHeader(provider.value));
    }
  }

  lemma PlainUnmarked(l: string, keys: set<string>)
    requires PlainLine(l)
    ensures FileItems.Unmarked(INDENT + l, MarksFor(keys))
  {
    forall k | k in keys ensures !IsBegin(INDENT + l, MarksOf(k)) && !IsEnd(INDENT + l, MarksOf(k)) {
      PlainIsForeign(l, k);
      ForeignIsNoMark(INDENT, l, MarksOf(k));
    }
  }

  /** The operations that HAProxy targets perform are the ones SharedFile speaks of: the theorems about
      shared files hold for any set of HAProxy targets. */
  lemma InstallOpOk(id: string, mode: string, realIP: bool, provider: Option<string>, managedPath: string,
                    selector: string, keys: set<string>)
    requires OneLine(id) && forall k :: k in keys ==> OneLine(k)
    requires managedPath in keys
    ensures SharedFile.OpOk(InstallOp(id, mode, realIP, provider, managedPath, selector), MarksFor(keys))
  {
    var p := Payload(id, mode, realIP, provider, managedPath);
    PayloadPlain(id, mode, realIP, provider, managedPath);
    MatcherTopLevel(selector);
    forall i | 0 <= i < |p| ensures OneLine(p[i]) && FileItems.Unmarked(INDENT + p[i], MarksFor(keys)) {
      assert p[i] in p;
      PlainUnmarked(p[i], keys);
    }
    MarksOneLine(managedPath);
  }

  function InstallOp(id: string, mode: string, realIP: bool, provider: Option<string>, managedPath: string,
                     selector: string)
    : (r: SharedFile.Op)
  {
    SharedFile.Install(MarksOf(managedPath), Payload(id, mode, realIP, provider, managedPath), INDENT, selector,
                       FrontendMatcher(selector))
  }

  // ---------- any set of targets ----------

  /** What HAProxy targets do to the file they share. */
  datatype Call =
    | Apply(id: string, mode: string, realIP: bool, provider: Option<string>, managedPath: string, selector: string)
    | Remove(managedPath: string)

  function OpOf(c: Call): (r: SharedFile.Op) {
    match c
    case Apply(id, mode, realIP, provider, managedPath, selector) =>
        InstallOp(id, mode, realIP, provider, managedPath, selector)
    case Remove(managedPath) => SharedFile.Uninstall(MarksOf(managedPath))
  }

  function OpsOf(calls: seq<Call>): (r: seq<SharedFile.Op>) {
    if calls == [] then [] else [OpOf(calls[0])] + OpsOf(calls[1..])
  }

  ghost function MarksFor(paths: set<string>): (r: set<Marks>) {
    set p | p in paths :: MarksOf(p)
  }

  /** A call by a target with one of these managed files. */
  predicate CallOk(c: Call, paths: set<string>) {
    c.managedPath in paths && (c.Apply? ==> OneLine(c.id)) && forall p :: p in paths ==> OneLine(p)
  }

  predicate CallsOk(calls: seq<Call>, paths: set<string>) {
    forall i :: 0 <= i < |calls| ==> CallOk(calls[i], paths)
  }

  lemma CallIsOp(c: Call, paths: set<string>)
    requires CallOk(c, paths)
    ensures SharedFile.OpOk(OpOf(c), MarksFor(paths))
  {
    if c.Apply? {
      InstallOpOk(c.id, c.mode, c.realIP, c.provider, c.managedPath, c.selector, paths);
    }
  }

  /** An apply whose header is there edits as the engine does; without one, the engine refuses. */
  lemma EditIsInject(conf: string, c: Call)
    requires c.Apply?
    ensures var r := Inject(conf, c.managedPath, Payload(c.id, c.mode, c.realIP, c.provider, c.managedPath),
                            c.selector);
            SharedFile.Edit(conf, OpOf(c)) == if r.Ok? then r.value else conf
  {
  }

  lemma {:induction false} CallsAreOps(calls: seq<Call>, paths: set<string>)
    requires CallsOk(calls, paths)
    ensures SharedFile.OpsOk(OpsOf(calls), MarksFor(paths))
  {
    if calls != [] {
      CallIsOp(calls[0], paths);
      CallsAreOps(calls[1..], paths);
    }
  }

  /** Any run of applies and removals by any HAProxy targets, on one file without their marks: the original
      lines stay in order, each installed target has one intact block below its header, and stripping the
      installed targets in any order gives the original file. */
  lemma TargetsShareTheFile(file: string, calls: seq<Call>, paths: set<string>, order: seq<Marks>)
    requires CallsOk(calls, paths) && FileItems.MarkFree(file, MarksFor(paths))
    requires forall k :: k in order ==> k in MarksFor(paths)
    requires forall k :: k in SharedFile.InstalledAfter(Split(file), map[], OpsOf(calls)) ==> k in order
    ensures exists items ::
      && SharedFile.Run(file, OpsOf(calls)) == Join(FileItems.Render(items))
      && SharedFile.Made(Split(file), items, SharedFile.InstalledAfter(Split(file), map[], OpsOf(calls)),
                         MarksFor(paths))
      && SharedFile.Standing(items, [], SharedFile.HomesAfter(Split(file), map[], OpsOf(calls)))
    ensures SharedFile.StripAll(SharedFile.Run(file, OpsOf(calls)), order) == file
  {
    CallsAreOps(calls, paths);
    SharedFile.KeysMakeFamily(paths);
    SharedFile.SharedFileTheorem(file, OpsOf(calls), MarksFor(paths));
    SharedFile.StripInstalledRestores(file, OpsOf(calls), MarksFor(paths), order);
  }
}
