/** How each config engine fills in the transaction, and when its edit settles and is undone by removal. */
module EnginePlans {
  import opened Text
  import opened ManagedBlocks
  import opened Fetcher
  import opened Targets
  import opened ConfigApply
  import opened Transactions
  import Renders
  import FileItems
  import HAProxy
  import Apache
  import Caddy
  import NginxScan
  import NginxInject
  import NginxGuarantees

  /** What detection gives: an engine's own config file, and the directory of a file. */
  datatype Env = Env(detected: string -> string, dir: string -> string)

  predicate IsConfigEngine(engine: string) {
    engine == "nginx" || engine == "caddy" || engine == "apache" || engine == "haproxy"
  }

  function ConfFile(t: Target, env: Env): (r: string) {
    if t.config.file != "" then t.config.file else env.detected(t.engine)
  }

  /** The managed file lies beside the config file; for nginx, beside the detected one. */
  function ManagedPath(t: Target, env: Env): (r: string) {
    env.dir(if t.engine == "nginx" then env.detected(t.engine) else ConfFile(t, env))
    + "/ip-watch/" + t.id + (if t.engine == "haproxy" then ".acl" else ".conf")
  }

  function GlobalKey(path: string): (r: string) {
    path + " global"
  }

  function Data(t: Target, c: CIDRs): (r: string) {
    if t.engine == "nginx" then Renders.IncludeText(t, c)
    else if t.engine == "caddy" then Renders.CaddyText(t, c)
    else if t.engine == "apache" then Renders.ApacheText(t, c)
    else Renders.HAProxyText(t, c)
  }

  /** real_ip: the ranges to trust, if they are known. */
  function TrustLine(t: Target, c: Option<CIDRs>): (r: Option<string>) {
    if t.config.realIP && c.Some? then Some(Caddy.TrustedProxies(c.value.v4 + c.value.v6)) else None
  }

  function Payload(t: Target, c: Option<CIDRs>, path: string): (r: seq<string>) {
    HAProxy.Payload(t.id, t.mode, t.config.realIP, if c.Some? then Some(c.value.provider) else None, path)
  }

  function NginxEdit(conf: string, path: string, selector: string): (r: Result<string>) {
    NginxInject.InjectInto(Strip(conf, MarksOf(path)), MarksOf(path), "include " + path + ";", selector)
  }

  function NginxEditor(path: string, selector: string): string -> Result<string> {
    conf => NginxEdit(conf, path, selector)
  }

  function CaddyEditor(path: string, selector: string, tp: Option<string>): string -> Result<string> {
    conf => Caddy.Inject(conf, MarksOf(path), MarksOf(GlobalKey(path)), "import " + path, selector, tp)
  }

  ghost function ApacheEditor(path: string, selector: string): string -> Result<string> {
    if selector == "" then conf => Ok(Apache.AppendInclude(conf, MarksOf(path), "Include " + path))
    else conf => Apache.VhostInject(conf, MarksOf(path), "Include " + path, selector)
  }

  function HAProxyEditor(path: string, payload: seq<string>, selector: string): string -> Result<string> {
    conf => HAProxy.Inject(conf, path, payload, selector)
  }

  ghost function InjectOf(t: Target, c: Option<CIDRs>, path: string): string -> Result<string> {
    if t.engine == "nginx" then NginxEditor(path, t.config.selector)
    else if t.engine == "caddy" then CaddyEditor(path, t.config.selector, TrustLine(t, c))
    else if t.engine == "apache" then ApacheEditor(path, t.config.selector)
    else HAProxyEditor(path, Payload(t, c, path), t.config.selector)
  }

  /** The plan of a config engine; the ranges are absent on removal. */
  ghost function PlanOf(t: Target, c: Option<CIDRs>, env: Env): Plan {
    var path := ManagedPath(t, env);
    Plan(path, if c.Some? then Data(t, c.value) else "", false, ConfFile(t, env), InjectOf(t, c, path),
         MarksOf(path), if t.engine == "caddy" then [MarksOf(GlobalKey(path))] else [])
  }

  // ---------- when an edit settles ----------

  predicate PlainRanges(c: Option<CIDRs>) {
    c.Some? ==> forall i :: 0 <= i < |c.value.v4 + c.value.v6| ==> OneLine((c.value.v4 + c.value.v6)[i])
  }

  ghost predicate Sound(t: Target, c: Option<CIDRs>, path: string) {
    IsConfigEngine(t.engine) && OneLine(path) && OneLine(t.id) && PlainRanges(c)
  }

  lemma {:induction false} WordsOneLine(ws: seq<string>)
    requires forall i :: 0 <= i < |ws| ==> OneLine(ws[i])
    ensures OneLine(Caddy.Words(ws))
  {
    if |ws| > 1 {
      WordsOneLine(ws[1..]);
      assert OneLine(ws[0] + " ");
    }
  }

  lemma TrustPlain(t: Target, c: Option<CIDRs>)
    requires PlainRanges(c) && TrustLine(t, c).Some?
    ensures PlainLine(TrustLine(t, c).value)
  {
    var words := Caddy.Words(c.value.v4 + c.value.v6);
    WordsOneLine(c.value.v4 + c.value.v6);
    assert TrustLine(t, c).value == "trusted_proxies static " + words;
    assert OneLine("trusted_proxies static ");
  }

  lemma Prefixed(verb: string, path: string, end: string)
    requires PlainLine(verb) && OneLine(path) && OneLine(end)
    ensures PlainLine(verb + path + end) && PlainLine(verb + path)
  {
  }

  /** The text after a newline can take the nginx block: one follows the brace of the block that is edited. */
  predicate NginxFits(conf: string, path: string, selector: string) {
    var src := Strip(conf, MarksOf(path));
    NginxEdit(conf, path, selector).Ok? ==>
      var bs := NginxScan.Blocks(src);
      var n := NginxInject.Target(bs, selector);
      n < |bs| && bs[n].open <= |src| && NginxScan.HasNewline(src, bs[n].open)
  }

  /** The Caddyfile carries at most intact blocks of the two keys, over lines without their marks. */
  ghost predicate CaddyOver(conf: string, mk: Marks, gk: Marks, selector: string, items: seq<FileItems.Item>,
                            base: seq<string>) {
    && conf == Join(FileItems.Render(items)) && Caddy.Over(items, base, mk, gk, selector)
    && AllOneLine(base) && NoMarks(base, mk) && NoMarks(base, gk)
  }

  ghost predicate CaddyFits(conf: string, mk: Marks, gk: Marks, selector: string) {
    exists items, base :: CaddyOver(conf, mk, gk, selector, items, base)
      && (selector != "" || Caddy.GlobalFirst(Join(base)))
  }

  /** What the config file must be like for the edit to settle on it; nothing for Apache and HAProxy. */
  ghost predicate Fits(t: Target, c: Option<CIDRs>, path: string, conf: string) {
    && (t.engine == "nginx" ==> NginxFits(conf, path, t.config.selector))
    && (t.engine == "caddy" && TrustLine(t, c).Some?
        ==> CaddyFits(conf, MarksOf(path), MarksOf(GlobalKey(path)), t.config.selector))
  }

  lemma NginxSettles(conf: string, path: string, selector: string)
    requires OneLine(path) && NginxFits(conf, path, selector) && NginxEdit(conf, path, selector).Ok?
    ensures Strip(NginxEdit(conf, path, selector).value, MarksOf(path)) == Strip(conf, MarksOf(path))
    ensures NginxEdit(NginxEdit(conf, path, selector).value, path, selector) == NginxEdit(conf, path, selector)
  {
    var mk, inc := MarksOf(path), "include " + path + ";";
    Prefixed("include ", path, ";");
    NginxGuarantees.KeysAreInsertable(path, inc);
    NginxGuarantees.StripUndoesInjectExactly(conf, mk, inc, selector);
  }

  lemma CaddyMarks(path: string)
    requires OneLine(path)
    ensures Caddy.EditOk(MarksOf(path), MarksOf(GlobalKey(path)), "import " + path)
  {
    assert OneLine(GlobalKey(path));
    Caddy.KeysHaveKeyMarks(path);
    Caddy.KeysHaveKeyMarks(GlobalKey(path));
    assert path != GlobalKey(path) by { assert |path| != |GlobalKey(path)|; }
    MarksDiffer(path, GlobalKey(path));
    Prefixed("import ", path, "");
  }

  /** The import line alone: the edit settles on every file. */
  lemma ImportSettles(conf: string, path: string, selector: string)
    requires OneLine(path)
    ensures var mk, gk, ref := MarksOf(path), MarksOf(GlobalKey(path)), "import " + path;
            var r := Caddy.Inject(conf, mk, gk, ref, selector, None);
            r.Ok? ==> Strip(r.value, mk) == Strip(conf, mk) && Caddy.Inject(r.value, mk, gk, ref, selector, None) == r
  {
    var mk, gk, ref := MarksOf(path), MarksOf(GlobalKey(path)), "import " + path;
    CaddyMarks(path);
    PlainIsForeign(ref, path);
    PayloadFits([ref], "\t", mk);
    var m := Caddy.SiteMatcher(selector);
    if Caddy.Inject(conf, mk, gk, ref, selector, None).Ok? {
      InjectThenStrip(conf, mk, [ref], "\t", selector, m);
    }
  }

  lemma PayloadFits(payload: seq<string>, indent: string, mk: Marks)
    requires AllSpace(indent) && OneLine(indent) && OneLine(mk.begin) && OneLine(mk.end)
    requires forall i :: 0 <= i < |payload| ==> OneLine(payload[i]) && Foreign(payload[i], mk)
    ensures PayloadOk(payload, indent, mk)
  {
    forall i | 0 <= i < |payload| ensures !IsEnd(indent + payload[i], mk) {
      ForeignIsNoMark(indent, payload[i], mk);
    }
  }

  lemma CaddySettles(conf: string, path: string, selector: string, tp: string)
    requires OneLine(path) && PlainLine(tp) && CaddyFits(conf, MarksOf(path), MarksOf(GlobalKey(path)), selector)
    ensures var mk, gk, ref := MarksOf(path), MarksOf(GlobalKey(path)), "import " + path;
            var r := Caddy.Inject(conf, mk, gk, ref, selector, Some(tp));
            r.Ok? ==> Caddy.Inject(r.value, mk, gk, ref, selector, Some(tp)) == r
  {
    var mk, gk, ref := MarksOf(path), MarksOf(GlobalKey(path)), "import " + path;
    CaddyMarks(path);
    var items, base :| CaddyOver(conf, mk, gk, selector, items, base)
      && (selector != "" || Caddy.GlobalFirst(Join(base)));
    Caddy.ReapplyIsApply(items, base, mk, gk, ref, selector, tp);
    SplitJoin(base);
    if Caddy.Inject(conf, mk, gk, ref, selector, Some(tp)).Ok? {
      Caddy.TwoKeyCycle(Join(base), mk, gk, ref, selector, tp, tp);
    }
  }

  lemma ApacheReference(path: string)
    requires OneLine(path)
    ensures Foreign("Include " + path, MarksOf(path)) && OneLine("Include " + path)
    ensures OneLine(MarksOf(path).begin) && OneLine(MarksOf(path).end)
  {
    Prefixed("Include ", path, "");
    PlainIsForeign("Include " + path, path);
    MarksOneLine(path);
  }

  lemma HAProxyFits(t: Target, c: Option<CIDRs>, path: string)
    requires OneLine(path) && OneLine(t.id)
    ensures PayloadOk(Payload(t, c, path), HAProxy.INDENT, MarksOf(path))
  {
    var payload := Payload(t, c, path);
    HAProxy.PayloadPlain(t.id, t.mode, t.config.realIP, if c.Some? then Some(c.value.provider) else None, path);
    forall i | 0 <= i < |payload| ensures OneLine(payload[i]) && Foreign(payload[i], MarksOf(path)) {
      assert payload[i] in payload;
      PlainIsForeign(payload[i], path);
    }
    MarksOneLine(path);
    PayloadFits(payload, HAProxy.INDENT, MarksOf(path));
  }

  lemma HAProxySettles(t: Target, c: Option<CIDRs>, path: string, conf: string)
    requires OneLine(path) && OneLine(t.id)
    ensures var mk := MarksOf(path);
            var r := HAProxy.Inject(conf, path, Payload(t, c, path), t.config.selector);
            r.Ok? ==>
              && Strip(r.value, mk) == Strip(conf, mk)
              && HAProxy.Inject(r.value, path, Payload(t, c, path), t.config.selector) == r
  {
    var m := HAProxy.FrontendMatcher(t.config.selector);
    HAProxyFits(t, c, path);
    if HAProxy.Inject(conf, path, Payload(t, c, path), t.config.selector).Ok? {
      InjectThenStrip(conf, MarksOf(path), Payload(t, c, path), HAProxy.INDENT, t.config.selector, m);
    }
  }

  predicate Settles(edit: string -> Result<string>, conf: string) {
    edit(conf).Ok? ==> edit(edit(conf).value) == edit(conf)
  }

  lemma SettlesNginx(t: Target, c: Option<CIDRs>, path: string, conf: string)
    requires t.engine == "nginx" && Sound(t, c, path) && Fits(t, c, path, conf)
    ensures Settles(InjectOf(t, c, path), conf)
  {
    if NginxEdit(conf, path, t.config.selector).Ok? {
      NginxSettles(conf, path, t.config.selector);
    }
  }

  lemma SettlesCaddy(t: Target, c: Option<CIDRs>, path: string, conf: string)
    requires t.engine == "caddy" && Sound(t, c, path) && Fits(t, c, path, conf)
    ensures Settles(InjectOf(t, c, path), conf)
  {
    if TrustLine(t, c).Some? {
      TrustPlain(t, c);
      CaddySettles(conf, path, t.config.selector, TrustLine(t, c).value);
    } else {
      ImportSettles(conf, path, t.config.selector);
    }
  }

  lemma SettlesApache(t: Target, c: Option<CIDRs>, path: string, conf: string)
    requires t.engine == "apache" && Sound(t, c, path)
    ensures Settles(InjectOf(t, c, path), conf)
  {
    ApacheReference(path);
    if t.config.selector == "" {
      Apache.AppendIdempotent(conf, MarksOf(path), "Include " + path);
    } else if InjectOf(t, c, path)(conf).Ok? {
      Apache.VhostThenStrip(conf, MarksOf(path), "Include " + path, t.config.selector);
    }
  }

  /** Every config engine's edit settles on a file that it fits. */
  lemma EngineSettles(t: Target, c: Option<CIDRs>, env: Env, conf: string)
    requires Sound(t, c, ManagedPath(t, env)) && Fits(t, c, ManagedPath(t, env), conf)
    ensures SettlesOn(PlanOf(t, c, env), conf)
  {
    var path := ManagedPath(t, env);
    if t.engine == "nginx" {
      SettlesNginx(t, c, path, conf);
    } else if t.engine == "caddy" {
      SettlesCaddy(t, c, path, conf);
    } else if t.engine == "apache" {
      SettlesApache(t, c, path, conf);
    } else {
      HAProxySettles(t, c, path, conf);
    }
    assert PlanOf(t, c, env).inject == InjectOf(t, c, path);
    assert Settles(InjectOf(t, c, path), conf);
  }

  // ---------- when removal undoes an edit ----------

  predicate MarkFree(conf: string, t: Target, path: string) {
    NoMarks(Split(conf), MarksOf(path)) && (t.engine == "caddy" ==> NoMarks(Split(conf), MarksOf(GlobalKey(path))))
  }

  predicate Appends(t: Target) {
    t.engine == "apache" && t.config.selector == ""
  }

  lemma CaddyCleans(t: Target, c: Option<CIDRs>, path: string, conf: string)
    requires t.engine == "caddy" && Sound(t, c, path) && MarkFree(conf, t, path) && InjectOf(t, c, path)(conf).Ok?
    requires TrustLine(t, c).Some? ==>
               t.config.selector != "" || Caddy.GlobalFirst(conf)
    ensures Strip(Strip(InjectOf(t, c, path)(conf).value, MarksOf(path)), MarksOf(GlobalKey(path))) == conf
  {
    var mk, gk, selector := MarksOf(path), MarksOf(GlobalKey(path)), t.config.selector;
    if TrustLine(t, c).Some? {
      TrustPlain(t, c);
      CaddyMarks(path);
      Caddy.TwoKeyCycle(conf, mk, gk, "import " + path, selector, TrustLine(t, c).value, TrustLine(t, c).value);
    } else {
      ImportSettles(conf, path, selector);
      StripMarkerFree(conf, mk);
      StripMarkerFree(conf, gk);
    }
  }

  /** What the mark-free config file must be like for removal to undo the edit, but for what Apache appends. */
  predicate Reversible(t: Target, c: Option<CIDRs>, path: string, conf: string) {
    && MarkFree(conf, t, path)
    && (t.engine == "nginx" ==> NginxFits(conf, path, t.config.selector))
    && (t.engine == "caddy" && TrustLine(t, c).Some? ==>
          t.config.selector != "" || Caddy.GlobalFirst(conf))
  }

  /** Removal gives a mark-free file back byte for byte; only Apache's appended block needs, exactly, that
      the file ended in two newlines. */
  lemma EngineCleans(t: Target, c: Option<CIDRs>, env: Env, conf: string)
    requires Sound(t, c, ManagedPath(t, env)) && Reversible(t, c, ManagedPath(t, env), conf)
    requires PlanOf(t, c, env).inject(conf).Ok?
    ensures Cleaned(PlanOf(t, c, env).inject(conf).value, PlanOf(t, c, env)) == conf
            <==> (Appends(t) ==> Apache.TrailingNewlines(conf) == 2)
  {
    var path, selector := ManagedPath(t, env), t.config.selector;
    var mk := MarksOf(path);
    StripMarkerFree(conf, mk);
    if t.engine == "caddy" {
      CaddyCleans(t, c, path, conf);
      OneKey(Strip(InjectOf(t, c, path)(conf).value, mk), MarksOf(GlobalKey(path)));
    } else if t.engine == "nginx" {
      NginxSettles(conf, path, selector);
    } else if t.engine == "apache" {
      ApacheReference(path);
      if selector == "" {
        Apache.AppendRemovalExactly(conf, mk, "Include " + path);
      } else {
        Apache.VhostThenStrip(conf, mk, "Include " + path, selector);
      }
    } else {
      HAProxySettles(t, c, path, conf);
    }
  }

  lemma OneKey(conf: string, gk: Marks)
    ensures StripKeys(conf, [gk]) == Strip(conf, gk)
  {
    assert [gk][1..] == [];
  }

  lemma CleanedSame(conf: string, plan: Plan, rplan: Plan)
    requires SamePlaces(plan, rplan)
    ensures Cleaned(conf, plan) == Cleaned(conf, rplan)
  {
  }

  /** Installing a target and removing it again, for every config engine: all files but the backups are as
      before, byte for byte, exactly when an appended Apache block met a file that ended in two newlines. */
  lemma EngineRoundTrip(t: Target, c: CIDRs, env: Env, w: World, w1: World, w2: World, unreadable: set<string>,
                        b1: string, b2: string, out1: Outcome, out2: Outcome, ev1: seq<Event>, ev2: seq<Event>)
    requires RoundTrip(w, w1, w2, unreadable, PlanOf(t, Some(c), env), PlanOf(t, None, env), b1, b2, out1, out2, ev1,
                       ev2)
    requires Sound(t, Some(c), ManagedPath(t, env))
    requires Reversible(t, Some(c), ManagedPath(t, env), w.files[ConfFile(t, env)])
    ensures (forall p :: p != b1 && p != b2 ==> SameAt(w.files, w2.files, p))
            <==> (Appends(t) ==> Apache.TrailingNewlines(w.files[ConfFile(t, env)]) == 2)
  {
    var plan, rplan := PlanOf(t, Some(c), env), PlanOf(t, None, env);
    var conf := w.files[ConfFile(t, env)];
    RoundTripExactly(w, w1, w2, unreadable, plan, rplan, b1, b2, out1, out2, ev1, ev2);
    EngineCleans(t, Some(c), env, conf);
    CleanedSame(plan.inject(conf).value, plan, rplan);
  }
}
