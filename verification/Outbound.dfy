/** Addresses as names of files in an outbound. */
module Outbound {
  import opened Options
  import opened Numbers
  import opened Addresses

  // ---- ftnaddress_to_filename_ ----

  /** Below the path of the domain: the directory, for a point the directory of its node, and the file; without an
      extension. */
  datatype Place = Place(dir: string, pnt: Option<string>, file: string)

  function DirName(a: Addr, d: Domain): string
    requires Is4D(a)
  {
    d.dir + if a.z != d.zone then "." + Pad(true, 3, a.z) else ""
  }

  function NodeName(a: Addr): string
    requires Is4D(a)
  {
    Pad(true, 4, a.net) + Pad(true, 4, a.node)
  }

  function PlaceOf(a: Addr, d: Domain): Place
    requires Is4D(a)
  {
    if a.p == 0 then Place(DirName(a, d), None, NodeName(a))
    else Place(DirName(a, d), Some(NodeName(a) + ".pnt"), Pad(true, 8, a.p))
  }

  function PathOf(q: Place, d: Domain): string {
    d.path + "/" + q.dir + "/" + (if q.pnt.Some? then q.pnt.value + "/" else "") + q.file
  }

  /** The two buffers `ext` and `pnt` are empty until they are printed into. */
  method Print(fa: Addr, d: Domain) returns (s: string)
    requires Is4D(fa)
    ensures s == PathOf(PlaceOf(fa, d), d)
  {
    var ext, pnt := "", "";
    if fa.z != d.zone {
      ext := "." + Pad(true, 3, fa.z);
    }
    if fa.p != 0 {
      pnt := ".pnt" + "/" + Pad(true, 8, fa.p);
    }
    s := d.path + "/" + d.dir + ext + "/" + Pad(true, 4, fa.net) + Pad(true, 4, fa.node) + pnt;
    Printed(d.path, d.dir, ext, Pad(true, 4, fa.net), Pad(true, 4, fa.node), Pad(true, 8, fa.p));
  }

  lemma Printed(path: string, dir: string, ext: string, net: string, node: string, point: string)
    ensures path + "/" + dir + ext + "/" + net + node + "" == path + "/" + (dir + ext) + "/" + "" + (net + node)
    ensures path + "/" + dir + ext + "/" + net + node + (".pnt" + "/" + point)
      == path + "/" + (dir + ext) + "/" + (net + node + ".pnt" + "/") + point
  {
  }

  method FtnaddressToFilename(fa: Addr, ds: seq<Domain>) returns (s: string)
    requires Is4D(fa)
    ensures var d := Lookup(fa.domain, ds);
      s == if d.None? then "" else PathOf(PlaceOf(fa, d.value), d.value)
  {
    var d := GetDomainInfo(fa.domain, ds);
    if d.None? {
      return "";
    }
    s := Print(fa, d.value);
  }

  // ---- q_scan and q_add_dir ----

  /** strtol with base 16, as far as the text is digits. */
  function HexLen(s: string): (k: nat)
    ensures k <= |s| && AllDigits(true, s[..k]) && (k < |s| ==> !IsDigit(true, s[k]))
  {
    if s != "" && IsDigit(true, s[0]) then
      var k := HexLen(s[1..]);
      assert s[..k + 1] == [s[0]] + s[1..][..k];
      k + 1
    else 0
  }

  function Strtol(s: string): int {
    if |s| > 2 && s[0] == '0' && s[1] in "xX" && IsDigit(true, s[2])
    then Read(true, s[2..][..HexLen(s[2..])])
    else Read(true, s[..HexLen(s)])
  }

  /** The zone of an outbound directory of the domain; None for another entry. */
  function ZoneOf(name: string, d: Domain): Option<int> {
    var len := |d.dir|;
    if |name| < len || !SameName(name[..len], d.dir) then None
    else if |name| == len then Some(d.zone)
    else if name[len] == '.' && len + 1 < |name| && IsDigit(true, name[len + 1]) then
      var z := Strtol(name[len + 1..]);
      if z != d.zone then Some(z) else None
    else None
  }

  /** Eight hexadecimal digits, a dot and three more characters, none of them a dot. */
  predicate IsEntry(s: string) {
    |s| == 12 && AllDigits(true, s[..8]) && s[8] == '.' && '.' !in s[9..]
  }

  /** The address that q_add_dir takes for an entry of a directory; -1 stands for parts that the directory does not
      give. */
  function EntryOf(fa1: Addr, s: string): Option<Addr> {
    if !IsEntry(s) then None else
    var fa2 := if fa1.node != -1 && fa1.p != 0 then fa1.(p := Read(true, s[..8]))
               else fa1.(net := Read(true, s[..4]), node := Read(true, s[4..8]));
    if fa1.node != -1 && fa1.p != -1 && fa1 != fa2 then None else Some(fa2)
  }

  /** A file in the directory, not the directory of a node's points. */
  function FileOf(fa1: Addr, s: string): Option<Addr> {
    var fa2 := EntryOf(fa1, s);
    if fa2.None? || (SameName(s[9..], "pnt") && fa2.value.p == -1) then None
    else if fa2.value.p == -1 then Some(fa2.value.(p := 0)) else fa2
  }

  /** q_scan for the domain, down to one file: the address that the file is for. */
  function Decode(q: Place, d: Domain): Option<Addr> {
    var z := ZoneOf(q.dir, d);
    if z.None? then None else
    var top := Addr(z.value, -1, -1, -1, d.name);
    if q.pnt.None? then FileOf(top, q.file) else
    var boss := EntryOf(top, q.pnt.value);
    if boss.None? || !SameName(q.pnt.value[9..], "pnt") || boss.value.p != -1 then None
    else FileOf(boss.value, q.file)
  }

  // ---- the round trip ----

  lemma HexPowers()
    ensures Power(true, 4) == 0x10000 && Power(true, 8) == 0x1_0000_0000
  {
    assert Power(true, 2) == 16 * Power(true, 1);
    assert Power(true, 4) == 16 * Power(true, 3);
    assert Power(true, 6) == 16 * Power(true, 5);
    assert Power(true, 8) == 16 * Power(true, 7);
  }

  /** The length of the digits that a text begins with. */
  lemma {:induction false} HexLenAll(s: string)
    requires AllDigits(true, s)
    ensures HexLen(s) == |s|
  {
    if s != "" {
      HexLenAll(s[1..]);
    }
  }

  lemma StrtolPad(z: nat)
    ensures Strtol(Pad(true, 3, z)) == z && Pad(true, 3, z) != "" && IsDigit(true, Pad(true, 3, z)[0])
  {
    var t := Pad(true, 3, z);
    ReadPad(true, 3, z);
    HexLenAll(t);
    assert t[..|t|] == t && IsDigit(true, t[0]) && IsDigit(true, t[1]);
  }

  lemma ZoneBack(a: Addr, d: Domain)
    requires Is4D(a)
    ensures ZoneOf(DirName(a, d), d) == Some(a.z)
  {
    if a.z != d.zone {
      StrtolPad(a.z);
      var name, t := DirName(a, d), Pad(true, 3, a.z);
      assert name == d.dir + ("." + t);
      assert name[..|d.dir|] == d.dir && name[|d.dir| + 1..] == t;
    }
  }

  /** Two numbers, of four digits each if they fit, and an extension. */
  lemma NodeEntry(a: Addr, ext: string)
    requires Is4D(a) && |ext| == 3 && '.' !in ext
    ensures var s := NodeName(a) + "." + ext;
      && (IsEntry(s) <==> a.net <= 0xffff && a.node <= 0xffff)
      && (IsEntry(s) ==> Read(true, s[..4]) == a.net && Read(true, s[4..8]) == a.node && s[9..] == ext)
  {
    HexPowers();
    ReadPad(true, 4, a.net);
    ReadPad(true, 4, a.node);
    var n, f := Pad(true, 4, a.net), Pad(true, 4, a.node);
    var s := NodeName(a) + "." + ext;
    if |n| == 4 && |f| == 4 {
      assert s[..4] == n && s[4..8] == f && s[..8] == n + f && s[9..] == ext;
    }
  }

  lemma PointEntry(p: nat, ext: string)
    requires |ext| == 3 && '.' !in ext
    ensures var s := Pad(true, 8, p) + "." + ext;
      && (IsEntry(s) <==> p <= 0xffff_ffff)
      && (IsEntry(s) ==> Read(true, s[..8]) == p && s[9..] == ext)
  {
    HexPowers();
    ReadPad(true, 8, p);
    var t := Pad(true, 8, p);
    var s := t + "." + ext;
    if |t| == 8 {
      assert s[..8] == t && s[9..] == ext;
    }
  }

  /** The scan of the outbound takes the file that is named after an address, with any extension but .pnt, for that
      address, if and only if net and node have at most four hexadecimal digits and the point at most eight. */
  lemma ScanFinds(a: Addr, d: Domain, ext: string)
    requires Is4D(a) && a.domain == d.name && |ext| == 3 && '.' !in ext && !SameName(ext, "pnt")
    ensures var q := PlaceOf(a, d);
      Decode(q.(file := q.file + "." + ext), d) == Some(a) <==>
        a.net <= 0xffff && a.node <= 0xffff && a.p <= 0xffff_ffff
  {
    var top := Addr(a.z, -1, -1, -1, d.name);
    assert ZoneOf(DirName(a, d), d) == Some(a.z) by { ZoneBack(a, d); }
    if a.p == 0 {
      assert FileOf(top, NodeName(a) + "." + ext) == if a.net <= 0xffff && a.node <= 0xffff then Some(a) else None by {
        NodeEntry(a, ext);
      }
    } else {
      var s, u := NodeName(a) + ".pnt", Pad(true, 8, a.p) + "." + ext;
      assert s == NodeName(a) + "." + "pnt";
      assert EntryOf(top, s) == (if a.net <= 0xffff && a.node <= 0xffff then Some(a.(p := -1)) else None)
        && (EntryOf(top, s).Some? ==> s[9..] == "pnt") by { NodeEntry(a, "pnt"); }
      assert FileOf(a.(p := -1), u) == if a.p <= 0xffff_ffff then Some(a) else None by { PointEntry(a.p, ext); }
    }
  }

  /** So the files of two addresses of a domain, their busy flags among them, are never the same. */
  lemma PlacesDiffer(a: Addr, b: Addr, d: Domain)
    requires Is4D(a) && Is4D(b) && a.domain == d.name && b.domain == d.name
    requires a.net <= 0xffff && a.node <= 0xffff && a.p <= 0xffff_ffff && b.net <= 0xffff && b.node <= 0xffff
    requires b.p <= 0xffff_ffff
    ensures PlaceOf(a, d) == PlaceOf(b, d) ==> a == b
  {
    assert LowerChar("bsy"[0]) != LowerChar("pnt"[0]);
    ScanFinds(a, d, "bsy");
    ScanFinds(b, d, "bsy");
  }

  lemma HexDigits()
    ensures Pad(true, 4, 0) == "0000" && Pad(true, 4, 0x1000) == "1000" && Pad(true, 4, 0x10000) == "10000"
    ensures Pad(true, 4, 0x10001) == "10001"
  {
    assert Show(true, 0) == "0" && Show(true, 1) == "1";
    assert Show(true, 0x10) == "10";
    assert Show(true, 0x100) == "100";
    assert Show(true, 0x1000) == "1000";
  }

  /** ... which needs the bound: here node 0x10000 of net 0x1000 and node 0 of net 0x10001. */
  lemma SamePlace(z: nat, p: nat, d: Domain)
    ensures PlaceOf(Addr(z, 0x1000, 0x10000, p, d.name), d) == PlaceOf(Addr(z, 0x10001, 0, p, d.name), d)
  {
    var a, b := Addr(z, 0x1000, 0x10000, p, d.name), Addr(z, 0x10001, 0, p, d.name);
    assert NodeName(a) == NodeName(b) by { HexDigits(); }
    assert DirName(a, d) == DirName(b, d);
  }
}
