/** Flow files: lists of files to send, edited in place on disk while a session is still reading them. */
module FlowFile {
  import opened Options

  const MAXPATHLEN := 4096

  // ---- lines ----

  /** isspace in the C locale. */
  predicate IsSpace(c: char) { c in {' ', '\t', '\n', '\U{000B}', '\U{000C}', '\r'} }

  function Trim(l: string): string {
    if l != "" && IsSpace(l[|l| - 1]) then Trim(l[..|l| - 1]) else l
  }

  /** The position after the line that `i` is in. */
  function LineEnd(s: string, i: nat): (e: nat)
    requires i <= |s|
    ensures i <= e <= |s| && (i < |s| ==> i < e)
    decreases |s| - i
  {
    if i == |s| then i else if s[i] == '\n' then i + 1 else LineEnd(s, i + 1)
  }

  /** Where fgets (buf, MAXPATHLEN, flo) stops: behind the line, or where its buffer is full. */
  function Fgets(s: string, i: nat): (e: nat)
    requires i <= |s|
    ensures i <= e <= |s| && (i < |s| ==> i < e)
  {
    if LineEnd(s, i) - i <= MAXPATHLEN - 1 then LineEnd(s, i) else i + MAXPATHLEN - 1
  }

  /** What fgets takes, without the white space at its end. */
  function Piece(s: string, b: nat): string
    requires b <= |s|
  {
    Trim(s[b..Fgets(s, b)])
  }

  ghost predicate ShortLines(s: string) { forall i :: 0 <= i < |s| ==> LineEnd(s, i) - i <= MAXPATHLEN - 1 }

  predicate Boundary(s: string, b: nat) { b <= |s| && (b == 0 || b == |s| || s[b - 1] == '\n') }

  /** The line at `b`, without the white space at its end. */
  function Text(s: string, b: nat): string
    requires b <= |s|
  {
    Trim(s[b..LineEnd(s, b)])
  }

  /** An entry, not a blank line and not a tombstone. */
  predicate Live(t: string) { t != "" && t[0] != '~' }

  /** The entries from `b` on. */
  function Entries(s: string, b: nat): seq<string>
    requires b <= |s|
    decreases |s| - b
  {
    if b == |s| then [] else
    (if Live(Text(s, b)) then [Text(s, b)] else []) + Entries(s, LineEnd(s, b))
  }

  // ---- names ----

  predicate Signed(t: string) { t != "" && (t[0] == '^' || t[0] == '#') }

  /** The file that read_flo_line takes an entry for. */
  function Name(t: string): string { if Signed(t) then t[1..] else t }

  /** The lines that remove_from_spool takes for the file. */
  predicate Marks(t: string, file: string) { t != "" && (t == file || (Signed(t) && t[1..] == file)) }

  /** remove_from_spool takes exactly the entries that name the file, if and only if the name of the file itself does
      not begin with a sign. */
  lemma MarksNamed(file: string)
    requires Trim(file) == file
    ensures (forall t :: Live(t) && Trim(t) == t ==> (Marks(t, file) <==> Name(t) == file)) <==> !Signed(file)
  {
    if Signed(file) {
      assert Live(file) && Marks(file, file) && |Name(file)| < |file|;
    }
  }

  /** An entry ^X for the file X goes when another entry, ^^X, names a file ^X that has been sent. */
  lemma TakenForAnother()
    ensures Live("^X") && Name("^X") == "X" && Name("^^X") == "^X" && Marks("^X", "^X")
  {
  }

  // ---- what remove_from_spool writes ----

  function Bury(s: string, b: nat, file: string): string
    requires b <= |s|
    decreases |s| - b
  {
    if b == |s| then s else
    Bury(if Marks(Text(s, b), file) then s[b := '~'] else s, LineEnd(s, b), file)
  }

  function Without(ts: seq<string>, file: string): seq<string> {
    if ts == [] then [] else (if Marks(ts[0], file) then [] else [ts[0]]) + Without(ts[1..], file)
  }

  lemma {:induction false} WithoutAdd(a: seq<string>, b: seq<string>, file: string)
    ensures Without(a + b, file) == Without(a, file) + Without(b, file)
  {
    if a == [] {
      assert a + b == b;
    } else {
      WithoutAdd(a[1..], b, file);
      assert (a + b)[1..] == a[1..] + b;
    }
  }

  lemma {:induction false} LineEndIs(s: string, i: nat, e: nat)
    requires i < e <= |s|
    ensures LineEnd(s, i) == e <==> (forall k :: i <= k < e - 1 ==> s[k] != '\n') && (e == |s| || s[e - 1] == '\n')
    decreases e - i
  {
    if i + 1 < e {
      LineEndIs(s, i + 1, e);
    } else if e < |s| && s[i] != '\n' {
      assert LineEnd(s, e) > e;
    }
  }

  /** The line ends do not move when no line end is written or overwritten. */
  lemma SameEnds(s: string, t: string, i: nat)
    requires |s| == |t| && i <= |s| && forall k :: i <= k < |s| ==> (s[k] == '\n' <==> t[k] == '\n')
    ensures LineEnd(s, i) == LineEnd(t, i)
  {
    if i < |s| {
      var e := LineEnd(s, i);
      LineEndIs(s, i, e);
      LineEndIs(t, i, e);
    }
  }

  lemma {:induction false} SameEntries(s: string, t: string, i: nat)
    requires |s| == |t| && i <= |s| && s[i..] == t[i..]
    ensures Entries(s, i) == Entries(t, i)
    decreases |s| - i
  {
    if i < |s| {
      forall k | i <= k < |s| ensures s[k] == t[k] {
        assert s[k] == s[i..][k - i] && t[k] == t[i..][k - i];
      }
      SameEnds(s, t, i);
      var e := LineEnd(s, i);
      assert s[i..e] == s[i..][..e - i] == t[i..e];
      assert s[e..] == s[i..][e - i..] == t[e..];
      SameEntries(s, t, e);
    }
  }

  /** The first character of a line with something on it is no line end. */
  lemma TextStart(s: string, b: nat)
    requires b < |s| && Text(s, b) != ""
    ensures s[b] != '\n' && Text(s, b)[0] == s[b]
  {
    TrimStart(s[b..LineEnd(s, b)]);
  }

  lemma {:induction false} TrimStart(l: string)
    requires Trim(l) != ""
    ensures l != "" && Trim(l)[0] == l[0] && (l[0] == '\n' ==> |l| > 1)
    ensures !IsSpace(Trim(l)[|Trim(l)| - 1]) && |Trim(l)| <= |l|
  {
    if IsSpace(l[|l| - 1]) {
      TrimStart(l[..|l| - 1]);
    }
  }

  /** What one line becomes. */
  function BuryLine(s: string, b: nat, file: string): string
    requires b < |s|
  {
    if Marks(Text(s, b), file) then s[b := '~'] else s
  }

  lemma BuryLineIs(s: string, b: nat, file: string)
    requires b < |s|
    ensures var t, e := BuryLine(s, b, file), LineEnd(s, b);
      && |t| == |s| && LineEnd(t, b) == e && t[..b] == s[..b] && t[e..] == s[e..]
      && (forall k :: 0 <= k < |s| ==> (t[k] == '\n' <==> s[k] == '\n'))
      && (Marks(Text(s, b), file) ==> !Live(Text(t, b)))
  {
    var t := BuryLine(s, b, file);
    if Marks(Text(s, b), file) {
      TextStart(s, b);
      SameEnds(s, t, b);
      if Text(t, b) != "" {
        TextStart(t, b);
      }
    }
  }

  lemma {:induction false} BuryKeeps(s: string, b: nat, file: string)
    requires b <= |s|
    ensures var r := Bury(s, b, file);
      && |r| == |s| && r[..b] == s[..b]
      && (forall k :: 0 <= k < |s| ==> (r[k] == '\n' <==> s[k] == '\n') && (r[k] == s[k] || r[k] == '~'))
    decreases |s| - b
  {
    if b < |s| {
      BuryLineIs(s, b, file);
      var t, e := BuryLine(s, b, file), LineEnd(s, b);
      BuryKeeps(t, e, file);
      var r := Bury(s, b, file);
      assert r[..b] == r[..e][..b] && t[..b] == t[..e][..b];
    }
  }

  /** The entries from `b` on: exactly those that are not taken for the file. */
  lemma {:induction false} BuryEntries(s: string, b: nat, file: string)
    requires b <= |s|
    ensures |Bury(s, b, file)| == |s| && Entries(Bury(s, b, file), b) == Without(Entries(s, b), file)
    decreases |s| - b
  {
    if b < |s| {
      BuryLineIs(s, b, file);
      var t, e := BuryLine(s, b, file), LineEnd(s, b);
      var r := Bury(t, e, file);
      BuryKeeps(t, e, file);
      BuryEntries(t, e, file);
      SameEnds(t, r, b);
      assert r[b..e] == r[..e][b..] == t[..e][b..] == t[b..e];
      SameEntries(s, t, e);
      WithoutAdd(if Live(Text(s, b)) then [Text(s, b)] else [], Entries(s, e), file);
    }
  }

  /** The same from any line on: a reader in mid-file has the same entries before it, without those of the file. */
  lemma {:induction false} BuryLater(s: string, b: nat, i: nat, file: string)
    requires b <= i <= |s| && (b == i || Boundary(s, i))
    ensures |Bury(s, b, file)| == |s| && Entries(Bury(s, b, file), i) == Without(Entries(s, i), file)
    decreases |s| - b
  {
    if b == i {
      BuryEntries(s, b, file);
    } else {
      BuryLineIs(s, b, file);
      var t, e := BuryLine(s, b, file), LineEnd(s, b);
      NextBoundary(s, b, i);
      BuryLater(t, e, i, file);
      assert s[i..] == s[e..][i - e..] && t[i..] == t[e..][i - e..];
      SameEntries(s, t, i);
    }
  }

  lemma NextBoundary(s: string, b: nat, i: nat)
    requires b < i && Boundary(s, i)
    ensures LineEnd(s, b) <= i && Boundary(s, LineEnd(s, b))
  {
    LineEndIs(s, b, LineEnd(s, b));
  }

  // ---- the file and its reader ----

  /** `reader` is the position of the open file, None when the session has not opened it. */
  datatype Flow = Flow(data: string, there: bool, reader: Option<nat>)

  /** remove_from_spool, as far as the flow file goes; without a file it only removes an empty one. */
  function Removed(fl: Flow, file: Option<string>): Flow {
    if !fl.there then fl else
    var data := if file.Some? then Bury(fl.data, 0, file.value) else fl.data;
    Flow(data, fl.reader.Some? || Entries(data, 0) != [], fl.reader)
  }

  /** Where the next entry from `b` on is. */
  function Find(s: string, b: nat): (e: nat)
    requires b <= |s|
    ensures b <= e <= |s|
    decreases |s| - b
  {
    if b == |s| || Live(Text(s, b)) then b else Find(s, LineEnd(s, b))
  }

  /** read_flo_line: the entry, and the position after it. */
  function ReadLine(s: string, b: nat): (nat, Option<string>)
    requires b <= |s|
  {
    var e := Find(s, b);
    if e == |s| then (|s|, None) else (LineEnd(s, e), Some(Text(s, e)))
  }

  lemma {:induction false} ReadTakes(s: string, b: nat)
    requires b <= |s|
    ensures var (e, t) := ReadLine(s, b);
      b <= e <= |s| && Entries(s, b) == (if t.None? then [] else [t.value] + Entries(s, e))
    decreases |s| - b
  {
    if b < |s| && !Live(Text(s, b)) {
      ReadTakes(s, LineEnd(s, b));
    }
  }

  lemma {:induction false} FindIs(s: string, b: nat)
    requires Boundary(s, b)
    ensures var e := Find(s, b);
      && Boundary(s, e) && (e < |s| ==> Live(Text(s, e)))
      && forall c :: b <= c < e && Boundary(s, c) ==> !Live(Text(s, c))
    decreases |s| - b
  {
    if b < |s| && !Live(Text(s, b)) {
      var n := LineEnd(s, b);
      LineEndIs(s, b, n);
      FindIs(s, n);
      forall c | b < c < n ensures !Boundary(s, c) {
        assert s[c - 1] != '\n';
      }
    }
  }


  /** A line of what remove_from_spool leaves: the lines before the current one no longer change. */
  lemma LeftLine(s: string, b: nat, file: string)
    requires b < |s|
    ensures var t, e := BuryLine(s, b, file), LineEnd(s, b);
      var all := Bury(s, b, file);
      && |all| == |t| && all == Bury(t, e, file)
      && Entries(all, b) == (if Live(Text(s, b)) && !Marks(Text(s, b), file) then [Text(s, b)] else [])
         + Entries(all, e)
  {
    var t, e := BuryLine(s, b, file), LineEnd(s, b);
    BuryLineIs(s, b, file);
    BuryKeeps(t, e, file);
    var all := Bury(t, e, file);
    SameEnds(t, all, b);
    assert all[b..e] == all[..e][b..] == t[..e][b..] == t[b..e];
  }

  lemma StillShort(s: string, t: string)
    requires ShortLines(s) && |t| == |s| && forall k :: 0 <= k < |s| ==> (t[k] == '\n' <==> s[k] == '\n')
    ensures ShortLines(t)
  {
    forall i | 0 <= i < |t| ensures LineEnd(t, i) - i <= MAXPATHLEN - 1 {
      SameEnds(s, t, i);
    }
  }

  // ---- in pieces, as fgets takes them ----

  /** remove_from_spool from `b` on: what it leaves, and whether it has seen an entry that stays. After a mark fgets
      goes on behind the mark. */
  function Scan(s: string, b: nat, file: Option<string>): (string, bool)
    requires b <= |s|
    decreases |s| - b
  {
    if b == |s| then (s, false)
    else if file.Some? && Marks(Piece(s, b), file.value) then
      var t := s[b := '~']; Scan(t, Fgets(t, b + 1), file)
    else
      var (t, keeps) := Scan(s, Fgets(s, b), file); (t, keeps || Live(Piece(s, b)))
  }

  function Scanned(fl: Flow, file: Option<string>): Flow {
    if !fl.there then fl else
    var (data, keeps) := Scan(fl.data, 0, file);
    Flow(data, fl.reader.Some? || keeps, fl.reader)
  }

  /** read_flo_line: the first piece that is an entry, and the position behind it. */
  function ReadPiece(s: string, b: nat): (nat, Option<string>)
    requires b <= |s|
    decreases |s| - b
  {
    if b == |s| then (b, None)
    else if Live(Piece(s, b)) then (Fgets(s, b), Some(Piece(s, b)))
    else ReadPiece(s, Fgets(s, b))
  }

  /** When no line is too long for the buffer, the pieces are the lines. */
  lemma {:induction false} ScanShort(s: string, b: nat, file: Option<string>)
    requires b <= |s| && ShortLines(s)
    ensures var t := if file.Some? then Bury(s, b, file.value) else s;
      |t| == |s| && Scan(s, b, file) == (t, Entries(t, b) != [])
    decreases |s| - b
  {
    if file.Some? { BuryKeeps(s, b, file.value); }
    if b < |s| {
      var e := LineEnd(s, b);
      assert Piece(s, b) == Text(s, b);
      if file.None? {
        ScanShort(s, e, file);
      } else {
        LeftLine(s, b, file.value);
        BuryLineIs(s, b, file.value);
        var t := BuryLine(s, b, file.value);
        StillShort(s, t);
        ScanShort(t, e, file);
        if Marks(Text(s, b), file.value) {
          BehindMark(t, b);
        }
      }
    }
  }

  lemma BehindMark(t: string, b: nat)
    requires b < |t| && t[b] == '~' && ShortLines(t)
    ensures Fgets(t, b + 1) == LineEnd(t, b)
  {
    if b + 1 < |t| {
      assert LineEnd(t, b + 1) - (b + 1) <= MAXPATHLEN - 1;
    }
  }

  lemma ScannedShort(fl: Flow, file: Option<string>)
    requires ShortLines(fl.data)
    ensures Scanned(fl, file) == Removed(fl, file)
  {
    ScanShort(fl.data, 0, file);
  }

  lemma {:induction false} ReadShort(s: string, b: nat)
    requires b <= |s| && ShortLines(s)
    ensures ReadPiece(s, b) == ReadLine(s, b)
    decreases |s| - b
  {
    if b < |s| {
      assert Piece(s, b) == Text(s, b);
      ReadShort(s, LineEnd(s, b));
    }
  }

  /** A flow file and the session's reader of it. */
  class FlowFile {
    var data: string
    var there: bool
    var reader: Option<nat>

    ghost predicate Valid() reads this { reader.Some? ==> there && reader.value <= |data| }

    ghost function State(): Flow reads this { Flow(data, there, reader) }

    /** One round of the loop in remove_from_spool: `keeps` when an entry is left. */
    method OnePiece(file: Option<string>, pos: nat) returns (keeps: bool, next: nat)
      requires pos < |data|
      modifies this`data
      ensures |data| == |old(data)| && pos < next <= |data|
      ensures var (t, k) := Scan(data, next, file); Scan(old(data), pos, file) == (t, k || keeps)
    {
      next := Fgets(data, pos);
      var buf := Trim(data[pos..next]);
      keeps := false;
      if buf == "" {
        return;
      }
      if file.Some? && (file.value == buf || ((buf[0] == '^' || buf[0] == '#') && file.value == buf[1..])) {
        data := data[pos := '~'];
        // on to the next piece
        next := Fgets(data, pos + 1);
      } else {
        keeps := buf[0] != '~';
      }
    }

    method RemoveFromSpool(file: Option<string>) returns (rc: bool)
      requires Valid()
      modifies this`data, this`there
      ensures Valid() && rc == old(there) && State() == Scanned(old(State()), file)
      ensures ShortLines(old(data)) ==> State() == Removed(old(State()), file)
    {
      if ShortLines(data) { ScannedShort(State(), file); }
      if !there {
        return false;
      }
      var empty := true;
      var pos := 0;
      while pos < |data|
        invariant 0 <= pos <= |data| == |old(data)| && there
        invariant var (t, k) := Scan(data, pos, file); Scan(old(data), 0, file) == (t, k || !empty)
        decreases |data| - pos
      {
        var keeps, next := OnePiece(file, pos);
        if keeps { empty := false; }
        pos := next;
      }
      if reader.None? && empty {
        there := false;
      }
      return true;
    }

    /** start_file_transfer opens the flow file. */
    method Open() returns (ok: bool)
      requires Valid() && reader.None?
      modifies this`reader
      ensures Valid() && ok == there && reader == if there then Some(0) else None
    {
      ok := there;
      if there {
        reader := Some(0);
      }
    }

    method ReadFloLine() returns (t: Option<string>)
      requires Valid() && reader.Some?
      modifies this`reader
      ensures Valid() && reader.Some? && (reader.value, t) == ReadPiece(data, old(reader.value))
      ensures ShortLines(data) ==> (reader.value, t) == ReadLine(data, old(reader.value))
    {
      if ShortLines(data) { ReadShort(data, reader.value); }
      var pos := reader.value;
      while pos < |data|
        invariant 0 <= pos <= |data|
        invariant reader == old(reader) && ReadPiece(data, pos) == ReadPiece(data, old(reader.value))
        decreases |data| - pos
      {
        var next := Fgets(data, pos);
        var buf := Trim(data[pos..next]);
        if buf != "" && buf[0] != '~' {
          reader := Some(next);
          return Some(buf);
        }
        pos := next;
      }
      reader := Some(pos);
      return None;
    }

    /** The next entry to send; at the end of the flow file it is closed and, when no entry is left in it, removed. */
    method NextEntry() returns (t: Option<string>)
      requires Valid() && reader.Some?
      modifies this
      ensures Valid() && t == ReadPiece(old(data), old(reader.value)).1
      ensures State() == if t.Some? then old(State()).(reader := Some(ReadPiece(old(data), old(reader.value)).0))
        else Scanned(old(State()).(reader := None), None)
      ensures ShortLines(old(data)) ==>
        && ReadPiece(old(data), old(reader.value)) == ReadLine(old(data), old(reader.value))
        && Scanned(old(State()).(reader := None), None) == Removed(old(State()).(reader := None), None)
    {
      if ShortLines(data) {
        ReadShort(data, reader.value);
        ScannedShort(State().(reader := None), None);
      }
      t := ReadFloLine();
      if t.None? {
        reader := None;
        var rc := RemoveFromSpool(None);
      }
    }
  }

  // ---- a session ----

  /** `read`: where the entries read since the file was opened begin; `taken`: the files that were taken out. */
  datatype Sys = Sys(flow: Flow, read: seq<nat>, taken: seq<string>)

  datatype Label = Open | Read | Remove(file: string) | Close

  ghost predicate Next(s: Sys, l: Label, t: Sys) {
    var fl := s.flow;
    match l
    case Open => fl.there && fl.reader.None? && t == s.(flow := fl.(reader := Some(0)), read := [])
    case Read =>
      && fl.reader.Some? && fl.reader.value <= |fl.data|
      && var (e, line) := ReadLine(fl.data, fl.reader.value);
        t == if line.None? then s.(flow := Removed(fl.(reader := None), None))
             else s.(flow := fl.(reader := Some(e)), read := s.read + [Find(fl.data, fl.reader.value)])
    case Remove(f) => t == if fl.there then Sys(Removed(fl, Some(f)), s.read, s.taken + [f]) else s
    case Close => t == s.(flow := fl.(reader := None))       // the session ends
  }

  function WithoutAll(ts: seq<string>, taken: seq<string>): seq<string> {
    if taken == [] then ts else Without(WithoutAll(ts, taken[..|taken| - 1]), taken[|taken| - 1])
  }

  /** Of what was in the file, what has not been taken out is left; the reader is at the start of a line, has passed
      over no entry that is left, and has read none twice; and a file that is gone had nothing left. */
  ghost predicate Inv(first: string, s: Sys) {
    && |s.flow.data| == |first|
    && Entries(s.flow.data, 0) == WithoutAll(Entries(first, 0), s.taken)
    && (!s.flow.there ==> Entries(s.flow.data, 0) == [] && s.flow.reader.None?)
    && (s.flow.reader.Some? ==> Passed(s.flow.data, s.flow.reader.value, s.read))
  }

  ghost predicate Passed(data: string, at: nat, read: seq<nat>) {
    && Boundary(data, at)
    && (forall i, j :: 0 <= i < j < |read| ==> read[i] < read[j])
    && (forall i :: 0 <= i < |read| ==> read[i] < at)
    && (forall b :: 0 <= b < at && Boundary(data, b) && Live(Text(data, b)) ==> b in read)
  }

  lemma SameText(s: string, t: string, lo: nat, i: nat, hi: nat)
    requires |s| == |t| && lo <= i <= hi <= |s| && s[lo..hi] == t[lo..hi]
    requires LineEnd(s, i) == LineEnd(t, i) <= hi
    ensures Text(s, i) == Text(t, i)
  {
    var e := LineEnd(s, i);
    forall k | i <= k < e ensures s[k] == t[k] {
      assert s[k] == s[lo..hi][k - lo] && t[k] == t[lo..hi][k - lo];
    }
    assert s[i..e] == t[i..e];
  }

  /** An entry that is there after the marking was there before. */
  lemma {:induction false} BuryText(s: string, b: nat, i: nat, file: string)
    requires b <= i < |s| && (b == i || Boundary(s, i))
    ensures |Bury(s, b, file)| == |s| && (Live(Text(Bury(s, b, file), i)) ==> Live(Text(s, i)))
    decreases |s| - b
  {
    BuryLineIs(s, b, file);
    var t, e := BuryLine(s, b, file), LineEnd(s, b);
    if b == i {
      BuryKeeps(t, e, file);
      SameEnds(t, Bury(t, e, file), b);
      SameText(t, Bury(t, e, file), 0, b, e);
    } else {
      NextBoundary(s, b, i);
      BuryText(t, e, i, file);
      SameEnds(s, t, i);
      SameText(s, t, e, i, |s|);
    }
  }

  lemma RemoveInv(first: string, s: Sys, f: string, t: Sys)
    requires Inv(first, s) && s.flow.there && Next(s, Remove(f), t)
    ensures Inv(first, t)
  {
    var d := s.flow.data;
    BuryEntries(d, 0, f);
    BuryKeeps(d, 0, f);
    assert t.taken[..|s.taken|] == s.taken;
    if s.flow.reader.Some? {
      var at := s.flow.reader.value;
      forall b | 0 <= b < at && Boundary(t.flow.data, b) && Live(Text(t.flow.data, b)) ensures b in s.read {
        BuryText(d, 0, b, f);
      }
    }
  }

  lemma ReadPassed(d: string, at: nat, read: seq<nat>)
    requires Passed(d, at, read) && Find(d, at) < |d|
    ensures Passed(d, LineEnd(d, Find(d, at)), read + [Find(d, at)])
  {
    var p := Find(d, at);
    var e := LineEnd(d, p);
    FindIs(d, at);
    LineEndIs(d, p, e);
    forall b | 0 <= b < e && Boundary(d, b) && Live(Text(d, b)) ensures b in read + [p] {
      if b > p { NextBoundary(d, p, b); }
    }
  }

  lemma ReadInv(first: string, s: Sys, t: Sys)
    requires Inv(first, s) && Next(s, Read, t)
    ensures Inv(first, t)
  {
    if Find(s.flow.data, s.flow.reader.value) < |s.flow.data| {
      ReadPassed(s.flow.data, s.flow.reader.value, s.read);
    }
  }

  lemma NextInv(first: string, s: Sys, l: Label, t: Sys)
    requires Inv(first, s) && Next(s, l, t)
    ensures Inv(first, t)
  {
    match l
    case Open =>
    case Read => ReadInv(first, s, t);
    case Remove(f) => if s.flow.there { RemoveInv(first, s, f, t); }
    case Close =>
  }

  lemma {:induction false} LeftOver(ts: seq<string>, taken: seq<string>, t: string)
    requires t in ts && t !in WithoutAll(ts, taken)
    ensures exists f :: f in taken && Marks(t, f)
  {
    if taken != [] {
      var front, f := taken[..|taken| - 1], taken[|taken| - 1];
      if t in WithoutAll(ts, front) {
        if !Marks(t, f) { StaysIn(WithoutAll(ts, front), f, t); }
        assert f in taken;
      } else {
        LeftOver(ts, front, t);
      }
    }
  }

  lemma {:induction false} StaysIn(ts: seq<string>, f: string, t: string)
    requires t in ts && !Marks(t, f)
    ensures t in Without(ts, f)
  {
    if ts[0] != t {
      StaysIn(ts[1..], f, t);
    }
  }

  /** Over any sequence of sessions: the flow file keeps its length, exactly the entries of the files taken out of
      the spool are gone from it, the reader skips none of the others, and the file is removed only after every entry
      it ever had was taken out. */
  lemma {:induction false} RemovedWhenEmpty(ss: seq<Sys>, ls: seq<Label>, n: nat)
    requires |ss| == |ls| + 1 && n < |ss| && forall k :: 0 <= k < |ls| ==> Next(ss[k], ls[k], ss[k + 1])
    requires ss[0].flow.there && ss[0].flow.reader.None? && ss[0].taken == []
    ensures Inv(ss[0].flow.data, ss[n])
    ensures !ss[n].flow.there ==>
      forall t :: t in Entries(ss[0].flow.data, 0) ==>
      exists f :: f in ss[n].taken && Marks(t, f)
  {
    var first := ss[0].flow.data;
    if n > 0 {
      RemovedWhenEmpty(ss, ls, n - 1);
      NextInv(first, ss[n - 1], ls[n - 1], ss[n]);
    }
    if !ss[n].flow.there {
      forall t | t in Entries(first, 0) ensures exists f :: f in ss[n].taken && Marks(t, f) {
        LeftOver(Entries(first, 0), ss[n].taken, t);
      }
    }
  }
}
