/** What a target asks for: which packets are dropped. Containment is prefix matching, section 3.1 of RFC 4632. */
module Policy {
  import opened Text

  datatype Family = V4 | V6

  /** An address, most significant bit first. */
  datatype Addr = Addr(family: Family, bits: seq<bool>)

  /** A block of addresses: those that begin with the prefix. Host bits are already gone. */
  datatype Cidr = Cidr(family: Family, prefix: seq<bool>)

  predicate Contains(c: Cidr, a: Addr) {
    c.family == a.family && c.prefix <= a.bits
  }

  predicate Covered(nets: seq<Cidr>, a: Addr) {
    exists i :: 0 <= i < |nets| && Contains(nets[i], a)
  }

  datatype Packet = Packet(src: Addr, tcp: bool, dport: int, isNew: bool)

  datatype Filter = Filter(allow: bool, ports: seq<int>, v4: seq<Cidr>, v6: seq<Cidr>) {
    function Nets(f: Family): (r: seq<Cidr>) {
      if f.V4? then v4 else v6
    }

    /** New TCP to a policed port, from outside the list of its family (allow) or from inside it (deny). */
    predicate Drops(p: Packet) {
      && p.tcp && p.isNew && p.dport in ports
      && (allow <==> !Covered(Nets(p.src.family), p.src))
    }
  }

  /** How an entry of a list is read; None if it is no CIDR. */
  type Parser = string -> Option<Cidr>

  /** The blocks that a list of entries denotes. */
  function NetsOf(parse: Parser, entries: seq<string>): (r: seq<Cidr>) {
    if entries == [] then []
    else (if parse(entries[0]).Some? then [parse(entries[0]).value] else []) + NetsOf(parse, entries[1..])
  }

  lemma {:induction false} EntryIsNet(parse: Parser, entries: seq<string>, e: string)
    requires e in entries && parse(e).Some?
    ensures parse(e).value in NetsOf(parse, entries)
  {
    if entries[0] != e {
      EntryIsNet(parse, entries[1..], e);
    }
  }

  lemma {:induction false} NetIsEntry(parse: Parser, entries: seq<string>, c: Cidr) returns (e: string)
    requires c in NetsOf(parse, entries)
    ensures e in entries && parse(e) == Some(c)
  {
    if parse(entries[0]) == Some(c) {
      e := entries[0];
    } else {
      e := NetIsEntry(parse, entries[1..], c);
    }
  }

  /** Whether an address is covered depends only on which entries the list has, not on their order or number. */
  lemma CoverageOfSet(parse: Parser, a: seq<string>, b: seq<string>, x: Addr)
    requires forall e :: e in a ==> e in b
    ensures Covered(NetsOf(parse, a), x) ==> Covered(NetsOf(parse, b), x)
  {
    var na, nb := NetsOf(parse, a), NetsOf(parse, b);
    if Covered(na, x) {
      var i :| 0 <= i < |na| && Contains(na[i], x);
      var e := NetIsEntry(parse, a, na[i]);
      EntryIsNet(parse, b, e);
      var j :| 0 <= j < |nb| && nb[j] == na[i];
    }
  }
}
