/** The managed files: every target has its own, and after an edit the config file refers to it. */
module ManagedFiles {
  import opened Text
  import opened ManagedBlocks
  import opened Fetcher
  import opened Targets
  import opened ConfigApply
  import opened EnginePlans
  import FileItems
  import HAProxy
  import Apache
  import Caddy
  import NginxScan
  import NginxInject
  import NginxGuarantees

  // ---------- a file for every target ----------

  lemma LastSegment(dir1: string, name1: string, dir2: string, name2: string)
    requires '/' !in name1 && '/' !in name2 && dir1 + "/" + name1 == dir2 + "/" + name2
    ensures name1 == name2
  {
    var p, q := dir1 + "/" + name1, dir2 + "/" + name2;
    assert p[|dir1|] == '/' && q[|dir2|] == '/';
    assert forall i :: |dir1| < i < |p| ==> p[i] == name1[i - |dir1| - 1];
    assert forall i :: |dir2| < i < |q| ==> q[i] == name2[i - |dir2| - 1];
    assert |dir1| == |dir2|;
    assert p[|dir1| + 1..] == name1 && q[|dir2| + 1..] == name2;
  }

  function Ending(t: Target): (r: string) {
    if t.engine == "haproxy" then ".acl" else ".conf"
  }

  function FileDir(t: Target, env: Env): (r: string) {
    env.dir(if t.engine == "nginx" then env.detected(t.engine) else ConfFile(t, env)) + "/ip-watch"
  }

  lemma PathParts(t: Target, env: Env)
    ensures ManagedPath(t, env) == FileDir(t, env) + "/" + (t.id + Ending(t))
    ensures ManagedPath(t, env) != "" && !IsSpace(ManagedPath(t, env)[|ManagedPath(t, env)| - 1])
  {
    assert "/ip-watch/" == "/ip-watch" + "/";
  }

  lemma Ended(id: string, ending: string)
    requires ending != ""
    ensures (id + ending)[..|id + ending| - |ending|] == id
    ensures (id + ending)[|id + ending| - 1] == ending[|ending| - 1]
  {
  }

  lemma NamesDiffer(t1: Target, t2: Target)
    requires t1.id != t2.id
    ensures t1.id + Ending(t1) != t2.id + Ending(t2)
  {
    Ended(t1.id, Ending(t1));
    Ended(t2.id, Ending(t2));
  }

  lemma NoSlash(t: Target)
    requires ValidId(t.id)
    ensures '/' !in t.id + Ending(t)
  {
    assert '/' !in t.id && '/' !in Ending(t);
  }

  /** Targets with different ids never share a managed file, whatever their engines and config files. */
  lemma PathsDiffer(t1: Target, t2: Target, env: Env)
    requires ValidId(t1.id) && ValidId(t2.id) && t1.id != t2.id
    ensures ManagedPath(t1, env) != ManagedPath(t2, env)
  {
    PathParts(t1, env);
    PathParts(t2, env);
    NamesDiffer(t1, t2);
    NoSlash(t1);
    NoSlash(t2);
    if ManagedPath(t1, env) == ManagedPath(t2, env) {
      LastSegment(FileDir(t1, env), t1.id + Ending(t1), FileDir(t2, env), t2.id + Ending(t2));
    }
  }

  // ---------- a reference in the config file ----------

  /** Some line of the file says this and nothing else. */
  predicate Says(conf: string, text: string) {
    exists i :: 0 <= i < |Split(conf)| && TrimSpace(Split(conf)[i]) == text
  }

  lemma SaysLine(ls: seq<string>, i: nat, pad: string, text: string)
    requires AllOneLine(ls) && i < |ls| && ls[i] == pad + text && AllSpace(pad) && Solid(text)
    ensures Says(Join(ls), text)
  {
    SplitJoin(ls);
    TrimPadded(pad, text);
  }

  lemma InsertedOneLine(ls: seq<string>, at: nat, block: seq<string>)
    requires AllOneLine(ls) && AllOneLine(block) && at <= |ls|
    ensures AllOneLine(InsertLines(ls, at, block))
  {
    var r := InsertLines(ls, at, block);
    forall i | 0 <= i < |r| ensures OneLine(r[i]) {
      assert r[i] == if i < at then ls[i] else if i < at + |block| then block[i - at] else ls[i - |block|];
    }
  }

  lemma InsertedAt(ls: seq<string>, at: nat, block: seq<string>, k: nat)
    requires AllOneLine(ls) && AllOneLine(block) && at <= |ls| && k < |block|
    ensures AllOneLine(InsertLines(ls, at, block)) && |InsertLines(ls, at, block)| == |ls| + |block|
    ensures InsertLines(ls, at, block)[at + k] == block[k]
  {
    InsertedOneLine(ls, at, block);
  }

  lemma KeptAt(ls: seq<string>, at: nat, block: seq<string>, i: nat)
    requires AllOneLine(ls) && AllOneLine(block) && at <= |ls| && i < |ls|
    ensures AllOneLine(InsertLines(ls, at, block)) && |InsertLines(ls, at, block)| == |ls| + |block|
    ensures InsertLines(ls, at, block)[if i < at then i else i + |block|] == ls[i]
  {
    InsertedOneLine(ls, at, block);
  }

  /** A block that is placed below a header. */
  lemma SaysPlaced(src: string, mk: Marks, payload: seq<string>, k: nat, indent: string, selector: string, m: Matcher)
    requires OneLine(mk.begin) && OneLine(mk.end) && OneLine(indent) && AllSpace(indent)
    requires (forall i :: 0 <= i < |payload| ==> OneLine(payload[i])) && k < |payload| && Solid(payload[k])
    requires Place(src, Block(mk, payload, indent), selector, m).Ok?
    ensures Says(Place(src, Block(mk, payload, indent), selector, m).value, payload[k])
  {
    var ls, block := Split(src), Block(mk, payload, indent);
    var n := FirstHeader(ls, m) + 1;
    var r := InsertLines(ls, n, block);
    BlockOneLine(mk, payload, indent);
    InsertedAt(ls, n, block, k + 1);
    SaysLine(r, n + k + 1, indent, payload[k]);
  }

  lemma BlockOneLine(mk: Marks, payload: seq<string>, indent: string)
    requires OneLine(mk.begin) && OneLine(mk.end) && OneLine(indent)
    requires forall i :: 0 <= i < |payload| ==> OneLine(payload[i])
    ensures AllOneLine(Block(mk, payload, indent))
    ensures |Block(mk, payload, indent)| == |payload| + 2
    ensures forall i :: 0 <= i < |payload| ==> Block(mk, payload, indent)[i + 1] == indent + payload[i]
  {
  }

  /** What a file says it still says with lines inserted or text put in front. */
  lemma SaysAfterInsert(ls: seq<string>, at: nat, block: seq<string>, text: string)
    requires ls != [] && AllOneLine(ls) && AllOneLine(block) && at <= |ls| && Says(Join(ls), text)
    ensures Says(Join(InsertLines(ls, at, block)), text)
  {
    var r := InsertLines(ls, at, block);
    SplitJoin(ls);
    var i :| 0 <= i < |ls| && TrimSpace(ls[i]) == text;
    KeptAt(ls, at, block, i);
    SplitJoin(r);
  }

  lemma SaysBehind(front: string, conf: string, text: string)
    requires Says(conf, text)
    ensures Says(front + "\n" + conf, text)
  {
    SplitConcat(front, conf);
    var i :| 0 <= i < |Split(conf)| && TrimSpace(Split(conf)[i]) == text;
    assert Split(front + "\n" + conf)[|Split(front)| + i] == Split(conf)[i];
  }

  // ---------- nginx ----------

  lemma NginxSays(src: string, mk: Marks, include_: string, name: string)
    requires NginxGuarantees.Insertable(mk, include_) && Solid(include_)
    requires NginxInject.InjectInto(src, mk, include_, name).Ok?
    ensures Says(NginxInject.InjectInto(src, mk, include_, name).value, include_)
  {
    var n := NginxInject.Target(NginxScan.Blocks(src), name);
    NginxScan.BlocksAreSound(src, n);
    NginxGuarantees.BlockIndent(src, n);
    SplicedSays(src, NginxScan.Blocks(src)[n], mk, include_);
  }

  lemma SplicedSays(src: string, b: NginxScan.ServerBlock, mk: Marks, include_: string)
    requires NginxGuarantees.Insertable(mk, include_) && Solid(include_) && b.open < |src|
    requires AllSpace(b.indent + NginxInject.INDENT) && OneLine(b.indent + NginxInject.INDENT)
    ensures Says(NginxInject.InsertInto(src, b, mk, include_), include_)
  {
    var indent := b.indent + NginxInject.INDENT;
    var at := NginxScan.LineEnd(src, b.open);
    var r := NginxInject.InsertInto(src, b, mk, include_);
    NginxScan.LineEndMeaning(src, b.open);
    TrimPadded(indent, include_);
    if NginxScan.HasNewline(src, b.open) {
      NginxGuarantees.SplicedLines(src, at, indent, mk, include_);
      var k := |Split(src[..at - 1])|;
      assert Split(r)[k + 1] == Block(mk, [include_], indent)[1] == indent + include_;
    } else {
      NginxGuarantees.AtTheEnd(src, NginxInject.Inserted(indent, mk, include_));
      NginxGuarantees.AppendedToLine(src, indent, mk, include_);
      assert Split(r)[|Split(src)|] == indent + include_;
    }
  }

  // ---------- Caddy ----------

  lemma GlobalFront(gk: Marks, tp: string) returns (front: string)
    ensures Caddy.GlobalText(gk, tp) == front + "\n"
  {
    front := gk.begin + "\n{\n\tservers {\n\t\t" + tp + "\n\t}\n}\n" + gk.end;
  }

  lemma MergedOneLine(mk: Marks, gk: Marks, tp: string)
    requires Caddy.KeyMarks(mk) && Caddy.KeyMarks(gk) && Apart(mk, gk) && PlainLine(tp)
    ensures AllOneLine(Caddy.MergedLines(gk, tp))
  {
    Caddy.MergedSound(mk, gk, tp);
  }

  /** A text that is a file with lines inserted, or with text in front. */
  ghost predicate Grown(ls: seq<string>, r: string) {
    || (exists at: nat, block :: at <= |ls| && AllOneLine(block) && r == Join(InsertLines(ls, at, block)))
    || (exists front :: r == front + "\n" + Join(ls))
  }

  lemma GrownSays(ls: seq<string>, r: string, text: string)
    requires ls != [] && AllOneLine(ls) && Grown(ls, r) && Says(Join(ls), text)
    ensures Says(r, text)
  {
    if at: nat, block :| at <= |ls| && AllOneLine(block) && r == Join(InsertLines(ls, at, block)) {
      SaysAfterInsert(ls, at, block, text);
    } else {
      var front :| r == front + "\n" + Join(ls);
      SaysBehind(front, Join(ls), text);
    }
  }

  lemma AddedGrows(ls: seq<string>, mk: Marks, gk: Marks, tp: string)
    requires Caddy.KeyMarks(mk) && Caddy.KeyMarks(gk) && Apart(mk, gk) && PlainLine(tp)
    requires ls != [] && AllOneLine(ls) && Caddy.AddTrustedProxies(Join(ls), gk, tp).Ok?
    ensures Grown(ls, Caddy.AddTrustedProxies(Join(ls), gk, tp).value)
  {
    SplitJoin(ls);
    MergedOneLine(mk, gk, tp);
    var front := GlobalFront(gk, tp);
  }

  /** The trust line goes into a file that says the import, and leaves it there. */
  lemma TrustSays(ls: seq<string>, mk: Marks, gk: Marks, tp: string, text: string)
    requires Caddy.KeyMarks(mk) && Caddy.KeyMarks(gk) && Apart(mk, gk) && PlainLine(tp)
    requires ls != [] && AllOneLine(ls) && Says(Join(ls), text) && Caddy.AddTrustedProxies(Join(ls), gk, tp).Ok?
    ensures Says(Caddy.AddTrustedProxies(Join(ls), gk, tp).value, text)
  {
    AddedGrows(ls, mk, gk, tp);
    GrownSays(ls, Caddy.AddTrustedProxies(Join(ls), gk, tp).value, text);
  }

  /** On a file that the edit fits, the import is there in the end. */
  lemma CaddySays(conf: string, path: string, selector: string, tp: Option<string>)
    requires OneLine(path) && Solid("import " + path) && (tp.Some? ==> PlainLine(tp.value))
    requires tp.Some? ==> CaddyFits(conf, MarksOf(path), MarksOf(GlobalKey(path)), selector)
    requires CaddyEditor(path, selector, tp)(conf).Ok?
    ensures Says(CaddyEditor(path, selector, tp)(conf).value, "import " + path)
  {
    var mk, gk, reference := MarksOf(path), MarksOf(GlobalKey(path)), "import " + path;
    CaddyMarks(path);
    if tp.None? {
      SaysPlaced(Strip(conf, mk), mk, [reference], 0, "\t", selector, Caddy.SiteMatcher(selector));
    } else {
      var items, base :| CaddyOver(conf, mk, gk, selector, items, base)
        && (selector != "" || Caddy.GlobalFirst(Join(base)));
      Caddy.ReapplyIsApply(items, base, mk, gk, reference, selector, tp.value);
      Caddy.InjectBare(base, mk, gk, reference, selector, tp.value);
      ImportedSays(base, mk, gk, reference, selector, tp.value);
    }
  }

  lemma ImportedSays(base: seq<string>, mk: Marks, gk: Marks, reference: string, selector: string, tp: string)
    requires Caddy.EditOk(mk, gk, reference) && Solid(reference) && PlainLine(tp)
    requires base != [] && AllOneLine(base) && NoMarks(base, mk) && NoMarks(base, gk)
    requires FileItems.HasHeader(base, Caddy.SiteMatcher(selector))
    requires Caddy.AddTrustedProxies(Join(FileItems.Render(Caddy.Imported(base, mk, reference, selector))), gk, tp).Ok?
    ensures var placed := Join(FileItems.Render(Caddy.Imported(base, mk, reference, selector)));
            Says(Caddy.AddTrustedProxies(placed, gk, tp).value, reference)
  {
    var ls := FileItems.Render(Caddy.Imported(base, mk, reference, selector));
    Caddy.ImportedText(base, mk, gk, reference, selector);
    Caddy.BareOver(base, mk, gk, selector);
    Caddy.ImportedOver(base, mk, gk, reference, selector);
    FileItems.SoundRender(Caddy.Imported(base, mk, reference, selector), {mk, gk});
    SaysPlaced(Join(base), mk, [reference], 0, "\t", selector, Caddy.SiteMatcher(selector));
    TrustSays(ls, mk, gk, tp, reference);
  }

  /** The ranges to trust are in the file as well. */
  lemma TrustIsSaid(conf: string, path: string, selector: string, tp: string)
    requires OneLine(path) && PlainLine(tp) && Solid(tp) && CaddyEditor(path, selector, Some(tp))(conf).Ok?
    ensures Says(CaddyEditor(path, selector, Some(tp))(conf).value, tp)
  {
    var mk, gk := MarksOf(path), MarksOf(GlobalKey(path));
    var block := Block(mk, ["import " + path], "\t");
    CaddyMarks(path);
    AddedSaysTrust(Strip(Place(Strip(conf, mk), block, selector, Caddy.SiteMatcher(selector)).value, gk), gk, tp);
  }

  lemma AddedSaysTrust(src: string, gk: Marks, tp: string)
    requires Caddy.KeyMarks(gk) && PlainLine(tp) && Solid(tp) && Caddy.AddTrustedProxies(src, gk, tp).Ok?
    ensures Says(Caddy.AddTrustedProxies(src, gk, tp).value, tp)
  {
    if Caddy.HasGlobalBlock(src) {
      MergedSaysTrust(src, gk, tp);
    } else {
      GlobalSaysTrust(gk, tp);
      Caddy.JoinGlobal(gk, tp);
      SaysInFront(Join(Caddy.GlobalLines(gk, tp)), src, tp);
    }
  }

  lemma GlobalSaysTrust(gk: Marks, tp: string)
    requires Caddy.KeyMarks(gk) && PlainLine(tp) && Solid(tp)
    ensures Says(Join(Caddy.GlobalLines(gk, tp)), tp)
  {
    assert OneLine("{") && OneLine("\tservers {") && OneLine("\t\t") && OneLine("\t}") && OneLine("}");
    SaysLine(Caddy.GlobalLines(gk, tp), 3, "\t\t", tp);
  }

  lemma SaysInFront(front: string, conf: string, text: string)
    requires Says(front, text)
    ensures Says(front + "\n" + conf, text)
  {
    SplitConcat(front, conf);
    var i :| 0 <= i < |Split(front)| && TrimSpace(Split(front)[i]) == text;
    assert Split(front + "\n" + conf)[i] == Split(front)[i];
  }

  lemma MergedSaysTrust(src: string, gk: Marks, tp: string)
    requires Caddy.KeyMarks(gk) && PlainLine(tp) && Solid(tp)
    requires Place(src, Caddy.MergedLines(gk, tp), "", Caddy.BareBrace()).Ok?
    ensures Says(Place(src, Caddy.MergedLines(gk, tp), "", Caddy.BareBrace()).value, tp)
  {
    var ls, block := Split(src), Caddy.MergedLines(gk, tp);
    var n := FirstHeader(ls, Caddy.BareBrace()) + 1;
    MergedAre(gk, tp);
    InsertedAt(ls, n, block, 2);
    SaysLine(InsertLines(ls, n, block), n + 2, "\t\t", tp);
  }

  lemma MergedAre(gk: Marks, tp: string)
    requires Caddy.KeyMarks(gk) && OneLine(tp)
    ensures AllOneLine(Caddy.MergedLines(gk, tp)) && |Caddy.MergedLines(gk, tp)| == 5
    ensures Caddy.MergedLines(gk, tp)[2] == "\t\t" + tp
  {
    var p := Caddy.MergedPayload(tp);
    assert OneLine("servers {") && OneLine("}") && OneLine("\t");
    BlockOneLine(gk, p, "\t");
    assert "\t" + ("\t" + tp) == "\t\t" + tp;
  }

  // ---------- Apache ----------

  lemma AppendedSays(src: string, mk: Marks, reference: string)
    requires OneLine(mk.begin) && OneLine(mk.end) && OneLine(reference) && Solid(reference)
    ensures Says(Apache.Appended(src, mk, reference), reference)
  {
    Apache.AppendedLines(src, mk, reference);
    TrimPadded("", reference);
    Units(reference);
    TailAt(Split(src), mk, reference);
  }

  lemma TailAt(ls: seq<string>, mk: Marks, reference: string)
    ensures |ls + Apache.Tail(mk, reference)| > |ls| + 2 && (ls + Apache.Tail(mk, reference))[|ls| + 2] == reference
  {
  }

  lemma AppendSays(conf: string, mk: Marks, reference: string)
    requires OneLine(mk.begin) && OneLine(mk.end) && OneLine(reference) && Solid(reference)
    ensures Says(Apache.AppendInclude(conf, mk, reference), reference)
  {
    AppendedSays(Apache.TrimNewlines(Strip(conf, mk)), mk, reference);
  }

  lemma VhostSays(conf: string, mk: Marks, reference: string, selector: string)
    requires OneLine(mk.begin) && OneLine(mk.end) && OneLine(reference) && Solid(reference)
    requires Apache.VhostInject(conf, mk, reference, selector).Ok?
    ensures Says(Apache.VhostInject(conf, mk, reference, selector).value, reference)
  {
    var ls := Split(Strip(conf, mk));
    var o := Apache.PlacedAt(Strip(conf, mk), mk, reference, selector);
    var indent := Apache.LeadingWhitespace(ls[o]) + "    ";
    BlockOneLine(mk, [reference], indent);
    InsertedAt(ls, o + 1, Block(mk, [reference], indent), 1);
    SaysLine(InsertLines(ls, o + 1, Block(mk, [reference], indent)), o + 2, indent, reference);
  }

  // ---------- every engine ----------

  /** How each engine's config file refers to a file. */
  function Reference(t: Target, path: string): (r: string) {
    if t.engine == "nginx" then "include " + path + ";"
    else if t.engine == "caddy" then "import " + path
    else if t.engine == "apache" then "Include " + path
    else "acl ipwatch_" + HAProxy.Sanitize(t.id) + " src -f " + path
  }

  lemma ReferenceSolid(t: Target, path: string)
    requires path != "" && !IsSpace(path[|path| - 1])
    ensures Solid(Reference(t, path))
  {
    var r := Reference(t, path);
    assert r[|r| - 1] == if t.engine == "nginx" then ';' else path[|path| - 1];
  }

  lemma ReferenceOneLine(t: Target, path: string)
    requires OneLine(path) && OneLine(t.id)
    ensures OneLine(Reference(t, path))
  {
    HAProxy.SanitizeOneLine(t.id);
    assert OneLine("include ") && OneLine("import ") && OneLine("Include ");
    assert OneLine("acl ipwatch_") && OneLine(" src -f ");
  }

  /** After an edit of a file that fits, the config file refers to the very file that the plan writes. */
  lemma EditRefers(t: Target, c: CIDRs, env: Env, conf: string)
    requires Sound(t, Some(c), ManagedPath(t, env)) && Fits(t, Some(c), ManagedPath(t, env), conf)
    requires PlanOf(t, Some(c), env).inject(conf).Ok?
    ensures Says(PlanOf(t, Some(c), env).inject(conf).value, Reference(t, PlanOf(t, Some(c), env).managedPath))
  {
    var path := ManagedPath(t, env);
    PathParts(t, env);
    ReferenceSolid(t, path);
    MarksOneLine(path);
    ReferenceOneLine(t, path);
    if t.engine == "nginx" {
      Prefixed("include ", path, ";");
      NginxGuarantees.KeysAreInsertable(path, "include " + path + ";");
      NginxSays(Strip(conf, MarksOf(path)), MarksOf(path), "include " + path + ";", t.config.selector);
    } else if t.engine == "caddy" {
      if TrustLine(t, Some(c)).Some? {
        TrustPlain(t, Some(c));
      }
      CaddySays(conf, path, t.config.selector, TrustLine(t, Some(c)));
    } else if t.engine == "apache" {
      if t.config.selector == "" {
        AppendSays(conf, MarksOf(path), "Include " + path);
      } else {
        VhostSays(conf, MarksOf(path), "Include " + path, t.config.selector);
      }
    } else {
      AclIs(t, c, path);
      HAProxySays(t, c, path, conf);
    }
  }

  lemma PayloadLines(t: Target, c: CIDRs, path: string)
    requires OneLine(path) && OneLine(t.id)
    ensures forall i :: 0 <= i < |Payload(t, Some(c), path)| ==> OneLine(Payload(t, Some(c), path)[i])
  {
    var payload := Payload(t, Some(c), path);
    HAProxy.PayloadPlain(t.id, t.mode, t.config.realIP, Some(c.provider), path);
    assert forall i :: 0 <= i < |payload| ==> payload[i] in payload;
  }

  /** HAProxy's file says the acl. */
  lemma HAProxySays(t: Target, c: CIDRs, path: string, conf: string)
    requires OneLine(path) && OneLine(t.id) && Solid(Payload(t, Some(c), path)[0])
    requires HAProxyEditor(path, Payload(t, Some(c), path), t.config.selector)(conf).Ok?
    ensures Says(HAProxyEditor(path, Payload(t, Some(c), path), t.config.selector)(conf).value,
                 Payload(t, Some(c), path)[0])
  {
    PayloadLines(t, c, path);
    MarksOneLine(path);
    SaysPlaced(Strip(conf, MarksOf(path)), MarksOf(path), Payload(t, Some(c), path), 0, HAProxy.INDENT,
               t.config.selector, HAProxy.FrontendMatcher(t.config.selector));
  }

  lemma AclIs(t: Target, c: CIDRs, path: string)
    ensures Payload(t, Some(c), path)[0] == "acl ipwatch_" + HAProxy.Sanitize(t.id) + " src -f " + path
  {
    assert "acl ipwatch_" == "acl " + "ipwatch_";
    Assoc("acl ", "ipwatch_", HAProxy.Sanitize(t.id));
  }
}
