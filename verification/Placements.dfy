/** A target that keeps its place: what its config file must be like once, at the start of a run. */
module Placements {
  import opened Text
  import opened ManagedBlocks
  import opened Fetcher
  import opened Targets
  import opened ConfigApply
  import opened EnginePlans
  import FileItems
  import Caddy

  /** Engine, block and files of a target; whether it ever asks for real_ip. */
  datatype Placement = Placement(engine: string, selector: string, path: string, conf: string, trusts: bool)

  predicate Placed(t: Target, pl: Placement, env: Env) {
    && t.engine == pl.engine && t.config.selector == pl.selector
    && ManagedPath(t, env) == pl.path && ConfFile(t, env) == pl.conf
    && (t.config.realIP ==> pl.trusts)
  }

  /** The config file takes the edits of the place: for nginx, a newline follows the brace of the chosen
      block; for Caddy with real_ip, it carries at most intact blocks of the target, over lines with a
      selector or a global block first. Nothing is asked of the other files. */
  ghost predicate GoodConf(pl: Placement, conf: string) {
    && (pl.engine == "nginx" ==> NginxFits(conf, pl.path, pl.selector))
    && (pl.engine == "caddy" && pl.trusts
        ==> CaddyFits(conf, MarksOf(pl.path), MarksOf(GlobalKey(pl.path)), pl.selector))
  }

  lemma GoodFits(pl: Placement, t: Target, c: CIDRs, env: Env, conf: string)
    requires Placed(t, pl, env) && GoodConf(pl, conf)
    ensures Fits(t, Some(c), pl.path, conf)
  {
  }

  // ---------- edits keep it ----------

  lemma NginxByStrip(a: string, b: string, path: string, selector: string)
    requires Strip(a, MarksOf(path)) == Strip(b, MarksOf(path)) && NginxFits(a, path, selector)
    ensures NginxFits(b, path, selector)
  {
  }

  lemma NginxKeeps(conf: string, path: string, selector: string)
    requires OneLine(path) && NginxFits(conf, path, selector)
    ensures NginxEdit(conf, path, selector).Ok? ==> NginxFits(NginxEdit(conf, path, selector).value, path, selector)
    ensures NginxFits(Strip(conf, MarksOf(path)), path, selector)
  {
    StripClean(conf, MarksOf(path));
    NginxByStrip(conf, Strip(conf, MarksOf(path)), path, selector);
    if NginxEdit(conf, path, selector).Ok? {
      NginxSettles(conf, path, selector);
      NginxByStrip(conf, NginxEdit(conf, path, selector).value, path, selector);
    }
  }

  /** The import block goes into a file with blocks of the two keys; whether or not a trust line follows. */
  lemma ImportOver(items: seq<FileItems.Item>, base: seq<string>, mk: Marks, gk: Marks, reference: string,
                   selector: string)
    requires Caddy.EditOk(mk, gk, reference) && Caddy.Over(items, base, mk, gk, selector)
    requires AllOneLine(base) && NoMarks(base, mk) && NoMarks(base, gk)
             && FileItems.HasHeader(base, Caddy.SiteMatcher(selector))
    ensures Caddy.Over(FileItems.Below(FileItems.Drop(items, mk), Caddy.Import(mk, reference),
                                       Caddy.SiteMatcher(selector)), base, mk, gk, selector)
  {
    var m, it := Caddy.SiteMatcher(selector), Caddy.Import(mk, reference);
    var dropped := FileItems.Drop(items, mk);
    Caddy.MatchersTopLevel(selector);
    Caddy.ImportFits(mk, gk, reference, m);
    FileItems.DropSound(items, mk, {mk, gk});
    FileItems.DropRecessed(items, mk, m);
    FileItems.StripText(items, mk, {mk, gk});
    FileItems.BelowSound(dropped, it, m, {mk, gk});
    FileItems.BelowBase(dropped, it, m);
    FileItems.BelowRecessed(dropped, it, m, m);
    FileItems.DropBelow(dropped, it, m, mk);
    DropTwice(items, mk);
  }

  lemma {:induction false} DropTwice(items: seq<FileItems.Item>, mk: Marks)
    ensures FileItems.Drop(FileItems.Drop(items, mk), mk) == FileItems.Drop(items, mk)
  {
    if items != [] {
      DropTwice(items[1..], mk);
      var rest := FileItems.Drop(items[1..], mk);
      if !(items[0].Owned? && items[0].mk == mk) {
        assert ([items[0]] + rest)[1..] == rest;
      }
    }
  }

  /** Without a trust line, the edit leaves a file over the same lines. */
  lemma CaddyKeepsPlain(conf: string, path: string, selector: string, items: seq<FileItems.Item>, base: seq<string>)
    returns (items': seq<FileItems.Item>)
    requires OneLine(path) && CaddyOver(conf, MarksOf(path), MarksOf(GlobalKey(path)), selector, items, base)
    requires CaddyEditor(path, selector, None)(conf).Ok?
    ensures CaddyOver(CaddyEditor(path, selector, None)(conf).value, MarksOf(path), MarksOf(GlobalKey(path)), selector,
                      items', base)
  {
    var mk, gk, reference := MarksOf(path), MarksOf(GlobalKey(path)), "import " + path;
    CaddyMarks(path);
    Caddy.MatchersTopLevel(selector);
    Caddy.ImportFits(mk, gk, reference, Caddy.SiteMatcher(selector));
    Caddy.SecondHalfStart(items, base, mk, gk, reference, selector);
    ImportOver(items, base, mk, gk, reference, selector);
    items' := FileItems.Below(FileItems.Drop(items, mk), Caddy.Import(mk, reference), Caddy.SiteMatcher(selector));
  }

  /** With a trust line too. */
  lemma CaddyKeepsTrust(conf: string, path: string, selector: string, tp: string, items: seq<FileItems.Item>,
                        base: seq<string>)
    returns (items': seq<FileItems.Item>)
    requires OneLine(path) && PlainLine(tp)
             && CaddyOver(conf, MarksOf(path), MarksOf(GlobalKey(path)), selector, items, base)
    requires selector != "" || Caddy.GlobalFirst(Join(base))
    requires CaddyEditor(path, selector, Some(tp))(conf).Ok?
    ensures CaddyOver(CaddyEditor(path, selector, Some(tp))(conf).value, MarksOf(path), MarksOf(GlobalKey(path)),
                      selector, items', base)
  {
    var mk, gk, reference := MarksOf(path), MarksOf(GlobalKey(path)), "import " + path;
    CaddyMarks(path);
    Caddy.ReapplyIsApply(items, base, mk, gk, reference, selector, tp);
    SplitJoin(base);
    Caddy.GlobalFirstAgrees(Join(base), mk, gk, reference, selector, tp);
    Caddy.ImportedText(base, mk, gk, reference, selector);
    items' := Caddy.EditedItems(base, mk, gk, reference, selector, tp);
  }

  lemma CaddyKeeps(conf: string, path: string, selector: string, tp: Option<string>)
    requires OneLine(path) && (tp.Some? ==> PlainLine(tp.value))
             && CaddyFits(conf, MarksOf(path), MarksOf(GlobalKey(path)), selector)
    requires CaddyEditor(path, selector, tp)(conf).Ok?
    ensures CaddyFits(CaddyEditor(path, selector, tp)(conf).value, MarksOf(path), MarksOf(GlobalKey(path)), selector)
  {
    var items, base :| CaddyOver(conf, MarksOf(path), MarksOf(GlobalKey(path)), selector, items, base)
      && (selector != "" || Caddy.GlobalFirst(Join(base)));
    if tp.Some? {
      var after := CaddyKeepsTrust(conf, path, selector, tp.value, items, base);
    } else {
      var after := CaddyKeepsPlain(conf, path, selector, items, base);
    }
  }

  /** Cleaning leaves the bare lines. */
  lemma CaddyCleanKeeps(conf: string, path: string, selector: string)
    requires OneLine(path) && CaddyFits(conf, MarksOf(path), MarksOf(GlobalKey(path)), selector)
    ensures CaddyFits(Strip(Strip(conf, MarksOf(path)), MarksOf(GlobalKey(path))), MarksOf(path),
                      MarksOf(GlobalKey(path)), selector)
  {
    var mk, gk := MarksOf(path), MarksOf(GlobalKey(path));
    CaddyMarks(path);
    var items, base :| CaddyOver(conf, mk, gk, selector, items, base)
        && (selector != "" || Caddy.GlobalFirst(Join(base)));
    FileItems.StripText(items, mk, {mk, gk});
    FileItems.DropSound(items, mk, {mk, gk});
    FileItems.StripText(FileItems.Drop(items, mk), gk, {mk, gk});
    Caddy.BareOver(base, mk, gk, selector);
    assert CaddyOver(Join(base), mk, gk, selector, FileItems.AsItems(base), base);
  }

  /** An edit of the target keeps its config file good. */
  lemma GoodEdit(pl: Placement, t: Target, c: CIDRs, env: Env, conf: string)
    requires Placed(t, pl, env) && GoodConf(pl, conf) && Sound(t, Some(c), pl.path)
             && PlanOf(t, Some(c), env).inject(conf).Ok?
    ensures GoodConf(pl, PlanOf(t, Some(c), env).inject(conf).value)
  {
    if pl.engine == "nginx" {
      NginxKeeps(conf, pl.path, pl.selector);
    } else if pl.engine == "caddy" && pl.trusts {
      if TrustLine(t, Some(c)).Some? {
        TrustPlain(t, Some(c));
      }
      CaddyKeeps(conf, pl.path, pl.selector, TrustLine(t, Some(c)));
    }
  }

  /** So does its removal. */
  lemma GoodClean(pl: Placement, t: Target, env: Env, conf: string)
    requires Placed(t, pl, env) && GoodConf(pl, conf) && OneLine(pl.path)
    ensures GoodConf(pl, Cleaned(conf, PlanOf(t, None, env)))
  {
    if pl.engine == "nginx" {
      NginxKeeps(conf, pl.path, pl.selector);
    } else if pl.engine == "caddy" && pl.trusts {
      OneKey(Strip(conf, MarksOf(pl.path)), MarksOf(GlobalKey(pl.path)));
      CaddyCleanKeeps(conf, pl.path, pl.selector);
    }
  }
}
