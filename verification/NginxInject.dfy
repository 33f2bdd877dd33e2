/** Inserting the managed include into an nginx server block, and what that does to the text. */
module NginxInject {
  import opened Text
  import opened ManagedBlocks
  import opened NginxScan

  // ---------- the edit ----------

  /** Index of the first block that lists the name; the first block for the empty name; else their number. */
  function Target(bs: seq<ServerBlock>, name: string): (n: nat)
    ensures n <= |bs|
  {
    if name == "" || bs == [] || name in bs[0].names then 0 else 1 + Target(bs[1..], name)
  }

  lemma {:induction false} TargetMeaning(bs: seq<ServerBlock>, name: string)
    ensures name == "" ==> Target(bs, name) == 0
    ensures name != "" && Target(bs, name) < |bs| ==> name in bs[Target(bs, name)].names
    ensures forall k :: 0 <= k < Target(bs, name) ==> name !in bs[k].names
  {
    if name != "" && bs != [] && name !in bs[0].names {
      TargetMeaning(bs[1..], name);
    }
  }

  /** The three inserted lines, each with its newline. */
  function Inserted(indent: string, mk: Marks, include_: string): (r: string) {
    indent + mk.begin + "\n" + (indent + include_ + "\n") + (indent + mk.end + "\n")
  }

  function Spliced(src: string, at: nat, x: string): (r: string)
    requires at <= |src|
    ensures |r| == |src| + |x|
    ensures r[..at] == src[..at] && r[at..at + |x|] == x && r[at + |x|..] == src[at..]
  {
    src[..at] + x + src[at..]
  }

  const INDENT := "    "

  function InsertInto(src: string, b: ServerBlock, mk: Marks, include_: string): (r: string)
    requires b.open <= |src|
  {
    Spliced(src, LineEnd(src, b.open), Inserted(b.indent + INDENT, mk, include_))
  }

  function NoServer(name: string): (r: string) {
    if name == "" then "no server block found in config" else "no server block matches server_name " + name
  }

  function InjectInto(src: string, mk: Marks, include_: string, name: string): (r: Result<string>) {
    var bs := Blocks(src);
    if bs == [] then Err(NoServer(""))
    else
      var n := Target(bs, name);
      if n == |bs| then Err(NoServer(name))
      else
        BlocksAreSound(src, n);
        Ok(InsertInto(src, bs[n], mk, include_))
  }

  method BlockForServerName(bs: seq<ServerBlock>, name: string) returns (n: nat)
    requires name != ""
    ensures n == Target(bs, name)
  {
    assert bs[0..] == bs;
    for i := 0 to |bs|
      invariant Target(bs, name) == i + Target(bs[i..], name)
    {
      assert bs[i..][1..] == bs[i + 1..];
      for k := 0 to |bs[i].names|
        invariant name !in bs[i].names[..k]
      {
        if bs[i].names[k] == name {
          return i;
        }
      }
      assert bs[i].names[..|bs[i].names|] == bs[i].names;
    }
    return |bs|;
  }

  method InjectInclude(conf: string, mk: Marks, include_: string, name: string) returns (r: Result<string>)
    ensures r == InjectInto(Strip(conf, mk), mk, include_, name)
  {
    var src := StripManaged(conf, mk);
    var bs := FindServerBlocks(src);
    if bs == [] {
      return Err(NoServer(""));
    }
    var n := 0;
    if name != "" {
      n := BlockForServerName(bs, name);
      if n == |bs| {
        return Err(NoServer(name));
      }
    }
    BlocksAreSound(src, n);
    var text := InsertManaged(src, bs[n], mk, include_);
    r := Ok(text);
  }

  method InsertManaged(src: string, target: ServerBlock, mk: Marks, include_: string) returns (r: string)
    requires target.open <= |src|
    ensures r == InsertInto(src, target, mk, include_)
  {
    var indent := target.indent + INDENT;
    var managed := mk.begin + "\n" + (indent + include_ + "\n") + (indent + mk.end);
    var at := LineEndAfter(src, target.open);
    ManagedText(indent, mk.begin, indent + include_ + "\n", indent + mk.end);
    r := src[..at] + (indent + managed + "\n") + src[at..];
  }

  lemma ManagedText(a: string, b: string, c: string, d: string)
    ensures a + (b + "\n" + c + d) + "\n" == a + b + "\n" + c + (d + "\n")
  {
  }
}
