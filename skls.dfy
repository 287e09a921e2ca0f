/** The .skls motion-container browser: a container holds a u32 clip count followed by
    that many clips, each a null-terminated name, a (start, end) frame pair and a keyframe
    body. Opening the file builds a name -> (offset, frame count) index by skipping every
    body (its length comes from the motion decoder's skip calculator); selecting a clip later
    seeks back to its recorded offset and decodes that one clip. */
module Skls {
  import opened Util

  newtype byte = x: int | 0 <= x < 256

  /** Clip names are kept as the raw bytes read by `gets`. The model takes two names to be
      the same dictionary key exactly when their bytes are equal, that is, it assumes the
      string decoding of `gets` maps different byte strings to different names. */
  type Name = seq<byte>

  datatype Error =
    | Truncated(at: nat)       // struct.error / ValueError from the reader
    | BadMotion(at: nat)       // the skip calculator rejected the keyframe body
    | UnknownAnimation(name: Name)  // KeyError on the index
    | NoSelection(index: int)  // IndexError on the list of clips

  /** `_skip_motion_rest(view, 0)`: given the bytes from the cursor to the end of the
      buffer, the length of the keyframe body that starts there. It belongs to the motion
      decoder and is a parameter here. */
  type SkipCalculator = seq<byte> -> Option<nat>

  // ---------------------------------------------------------------------------
  // The primitive reads the index needs (xray_io.PackedReader over bytes)

  /** Little-endian u32 stored at `pos`. */
  function U32At(buf: seq<byte>, pos: nat): nat
    requires pos + 4 <= |buf|
  {
    buf[pos] as nat + 0x100 * buf[pos + 1] as nat + 0x1_0000 * buf[pos + 2] as nat
      + 0x100_0000 * buf[pos + 3] as nat
  }

  /** `getf('I')`: the u32 at `pos` and the position after it. */
  function ReadU32(buf: seq<byte>, pos: nat): (r: Result<(nat, nat), Error>)
    ensures r.Success? <==> pos + 4 <= |buf|
    ensures r.Success? ==> r.value.0 < 0x1_0000_0000 && r.value.1 == pos + 4
  {
    if pos + 4 <= |buf| then Success((U32At(buf, pos), pos + 4)) else Failure(Truncated(pos))
  }

  /** `getf('II')`: two u32 read as one 8-byte field. */
  function ReadU32Pair(buf: seq<byte>, pos: nat): (r: Result<(nat, nat), Error>)
    ensures r.Success? <==> pos + 8 <= |buf|
    ensures r.Success? ==> r.value == (U32At(buf, pos), U32At(buf, pos + 4))
  {
    if pos + 8 <= |buf| then Success((U32At(buf, pos), U32At(buf, pos + 4))) else Failure(Truncated(pos))
  }

  /** The first zero byte at or after `pos`, if any. */
  function FindZero(buf: seq<byte>, pos: nat): (r: Option<nat>)
    decreases |buf| - pos
    ensures r.Some? ==> pos <= r.value < |buf| && buf[r.value] == 0
    ensures r.Some? ==> forall k :: pos <= k < r.value ==> buf[k] != 0
    ensures r.None? ==> forall k :: pos <= k < |buf| ==> buf[k] != 0
  {
    if pos >= |buf| then None
    else if buf[pos] == 0 then Some(pos)
    else FindZero(buf, pos + 1)
  }

  /** `gets()`: the bytes up to the next zero byte, and the position after that zero. */
  function ReadString(buf: seq<byte>, pos: nat): (r: Result<(Name, nat), Error>)
    ensures r.Success? ==> pos < r.value.1 <= |buf| && buf[r.value.1 - 1] == 0
    ensures r.Success? ==> r.value.0 == buf[pos..r.value.1 - 1]
  {
    match FindZero(buf, pos)
    case None => Failure(Truncated(pos))
    case Some(z) => Success((buf[pos..z], z + 1))
  }

  /** A string read stops at the first terminator, so it contains none; it fails exactly
      when no terminator follows the cursor. */
  lemma ReadStringStopsAtTerminator(buf: seq<byte>, pos: nat)
    ensures ReadString(buf, pos).Success? ==> 0 !in ReadString(buf, pos).value.0
    ensures ReadString(buf, pos).Failure? <==> forall k :: pos <= k < |buf| ==> buf[k] != 0
  {
    var r := ReadString(buf, pos);
    if r.Success? {
      var z := FindZero(buf, pos).value;
      assert forall k :: 0 <= k < z - pos ==> r.value.0[k] == buf[pos + k];
    }
  }

  /** The reader object: the whole file held in memory and a cursor. */
  class PackedReader {
    const data: seq<byte>
    var offs: nat

    constructor (data: seq<byte>)
      ensures this.data == data && offs == 0
    {
      this.data := data;
      offs := 0;
    }

    /** `getf('I')[0]`; the reader advances its cursor before it unpacks. */
    method GetU32() returns (r: Result<nat, Error>)
      modifies this
      ensures offs == old(offs) + 4
      ensures r.Success? <==> ReadU32(data, old(offs)).Success?
      ensures r.Success? ==> r.value == ReadU32(data, old(offs)).value.0
    {
      var pos := offs;
      offs := offs + 4;
      if pos + 4 <= |data| {
        r := Success(U32At(data, pos));
      } else {
        r := Failure(Truncated(pos));
      }
    }

    /** `gets()`; the cursor moves only when a terminator is found. */
    method GetS() returns (r: Result<Name, Error>)
      modifies this
      ensures r.Success? <==> ReadString(data, old(offs)).Success?
      ensures r.Success? ==> r.value == ReadString(data, old(offs)).value.0
      ensures r.Success? ==> offs == ReadString(data, old(offs)).value.1
      ensures r.Failure? ==> offs == old(offs) && r.error == ReadString(data, old(offs)).error
    {
      var z := FindZero(data, offs);
      if z.None? {
        r := Failure(Truncated(offs));
      } else {
        r := Success(data[offs..z.value]);
        offs := z.value + 1;
      }
    }

    /** `getf('II')`. */
    method GetU32Pair() returns (r: Result<(nat, nat), Error>)
      modifies this
      ensures offs == old(offs) + 8
      ensures r == ReadU32Pair(data, old(offs))
    {
      var pos := offs;
      offs := offs + 8;
      if pos + 8 <= |data| {
        r := Success((U32At(data, pos), U32At(data, pos + 4)));
      } else {
        r := Failure(Truncated(pos));
      }
    }

    method SetOffset(pos: nat)
      modifies this
      ensures offs == pos
    {
      offs := pos;
    }

    method Skip(n: nat)
      modifies this
      ensures offs == old(offs) + n
    {
      offs := offs + n;
    }

    /** `getv()`: a view of the buffer from the cursor to its end. */
    function View(): (v: seq<byte>)
      reads this
      ensures offs <= |data| ==> v == data[offs..]
      ensures offs > |data| ==> v == []
    {
      if offs <= |data| then data[offs..] else []
    }
  }

  // ---------------------------------------------------------------------------
  // The index, as a function of the buffer

  /** What the index records per clip: the offset of the first byte of its name and
      `end_frame - start_frame` (a Python int: it may be negative). */
  datatype Entry = Entry(offset: nat, frames: int)

  /** One indexed clip: its name, where the name starts, where the name ends (just past its
      terminator), its frame count, and where the next clip starts. */
  datatype Clip = Clip(name: Name, offset: nat, nameEnd: nat, frames: int, next: nat)

  /** One iteration of `_index_animations`, started with the cursor at `offs`. */
  function ReadClip(data: seq<byte>, skip: SkipCalculator, offs: nat): (r: Result<Clip, Error>)
    ensures r.Success? ==> r.value.offset == offs && offs < r.value.nameEnd <= |data|
    ensures r.Success? ==> data[r.value.nameEnd - 1] == 0
    ensures r.Success? ==> r.value.nameEnd + 8 <= |data|
    ensures r.Success? ==>
      r.value.frames == U32At(data, r.value.nameEnd + 4) - U32At(data, r.value.nameEnd)
    ensures r.Success? ==> skip(data[r.value.nameEnd..]).Some?
    ensures r.Success? ==> r.value.next == r.value.nameEnd + skip(data[r.value.nameEnd..]).value
  {
    var name :- ReadString(data, offs);
    var frames :- ReadU32Pair(data, name.1);
    match skip(data[name.1..])
    case None => Failure(BadMotion(name.1))
    case Some(n) => Success(Clip(name.0, offs, name.1, frames.1 - frames.0, name.1 + n))
  }

  /** The recorded name is the bytes from the clip's offset up to (not including) the
      terminator, and it contains no zero byte. */
  lemma ClipName(data: seq<byte>, skip: SkipCalculator, offs: nat)
    requires ReadClip(data, skip, offs).Success?
    ensures var c := ReadClip(data, skip, offs).value;
      c.name == data[offs..c.nameEnd - 1] && 0 !in c.name
  {
    ReadStringStopsAtTerminator(data, offs);
  }

  /** A reader of one clip at a given cursor position. The scan below is stated over any
      such reader; `ClipAt` is the one `_index_animations` uses. */
  type ClipReader = nat -> Result<Clip, Error>

  function ClipAt(data: seq<byte>, skip: SkipCalculator): ClipReader
  {
    (p: nat) => ReadClip(data, skip, p)
  }

  /** A clip read at `p` starts at `p` and leaves the cursor strictly beyond it. */
  ghost predicate Advances(read: ClipReader)
  {
    forall p: nat :: read(p).Success? ==> read(p).value.offset == p && p < read(p).value.next
  }

  lemma ClipAtAdvances(data: seq<byte>, skip: SkipCalculator)
    ensures Advances(ClipAt(data, skip))
  {
  }

  /** Where the cursor stands after the clips `cs`, the first of which started at `first`. */
  function CursorAfter(cs: seq<Clip>, first: nat): nat
  {
    if cs == [] then first else cs[|cs| - 1].next
  }

  /** The first `n` clips, the first one starting at `first`. */
  function ScanClips(read: ClipReader, n: nat, first: nat): Result<seq<Clip>, Error>
  {
    if n == 0 then Success([])
    else
      var prev :- ScanClips(read, n - 1, first);
      var c :- read(CursorAfter(prev, first));
      Success(prev + [c])
  }

  /** All clips of a container whose count word is at `start`. */
  function IndexClips(data: seq<byte>, skip: SkipCalculator, start: nat): Result<seq<Clip>, Error>
  {
    var count :- ReadU32(data, start);
    ScanClips(ClipAt(data, skip), count.0, count.1)
  }

  /** The dictionary the loop fills: later clips overwrite earlier ones of the same name. */
  function ToMap(cs: seq<Clip>): map<Name, Entry>
  {
    if cs == [] then map[]
    else
      var c := cs[|cs| - 1];
      ToMap(cs[..|cs| - 1])[c.name := Entry(c.offset, c.frames)]
  }

  // ---------------------------------------------------------------------------
  // Properties of the index

  /** The loop runs exactly `n` times. */
  lemma {:induction false} ScanLength(read: ClipReader, n: nat, first: nat)
    requires ScanClips(read, n, first).Success?
    ensures |ScanClips(read, n, first).value| == n
  {
    if n > 0 {
      ScanLength(read, n - 1, first);
    }
  }

  /** The scanned clips form a chain: the first starts at `first`, each is what one
      iteration reads at its own offset, and each next one starts where the previous
      iteration left the cursor. */
  lemma {:induction false} ScanChain(read: ClipReader, n: nat, first: nat)
    requires Advances(read)
    requires ScanClips(read, n, first).Success?
    ensures var cs := ScanClips(read, n, first).value;
      && (|cs| > 0 ==> cs[0].offset == first)
      && (forall i :: 0 <= i < |cs| ==> read(cs[i].offset) == Success(cs[i]))
      && (forall i :: 0 <= i < |cs| - 1 ==> cs[i + 1].offset == cs[i].next)
  {
    if n > 0 {
      ScanChain(read, n - 1, first);
      ScanLength(read, n - 1, first);
    }
  }

  /** Recorded offsets strictly increase in file order: every name consumes at least its
      terminator and every skip is non-negative. */
  lemma {:induction false} OffsetsIncrease(read: ClipReader, n: nat, first: nat)
    requires Advances(read)
    requires ScanClips(read, n, first).Success?
    ensures var cs := ScanClips(read, n, first).value;
      forall i, j :: 0 <= i < j < |cs| ==> cs[i].offset < cs[j].offset
    ensures var cs := ScanClips(read, n, first).value;
      forall i :: 0 <= i < |cs| ==> cs[i].offset < CursorAfter(cs, first)
  {
    if n > 0 {
      OffsetsIncrease(read, n - 1, first);
      ScanLength(read, n - 1, first);
      var prev := ScanClips(read, n - 1, first).value;
      var c := read(CursorAfter(prev, first)).value;
      assert ScanClips(read, n, first).value == prev + [c];
    }
  }

  /** When iteration `k` fails, the whole scan fails. */
  lemma {:induction false} ScanFailsFrom(read: ClipReader, k: nat, n: nat, first: nat)
    requires k < n
    requires ScanClips(read, k, first).Success?
    requires read(CursorAfter(ScanClips(read, k, first).value, first)).Failure?
    ensures ScanClips(read, n, first).Failure?
  {
    if n > k + 1 {
      ScanFailsFrom(read, k, n - 1, first);
    }
  }

  /** The dictionary's keys are exactly the clip names read. */
  lemma {:induction false} ToMapKeys(cs: seq<Clip>)
    ensures forall i :: 0 <= i < |cs| ==> cs[i].name in ToMap(cs)
    ensures forall n :: n in ToMap(cs) ==> exists i :: 0 <= i < |cs| && cs[i].name == n
  {
    if cs != [] {
      var init, last := cs[..|cs| - 1], cs[|cs| - 1];
      ToMapKeys(init);
      assert ToMap(cs) == ToMap(init)[last.name := Entry(last.offset, last.frames)];
      forall n | n in ToMap(cs) ensures exists i :: 0 <= i < |cs| && cs[i].name == n {
        if n != last.name {
          assert n in ToMap(init);
          var i :| 0 <= i < |init| && init[i].name == n;
          assert cs[i] == init[i];
        }
      }
      forall i | 0 <= i < |cs| ensures cs[i].name in ToMap(cs) {
        if i < |init| { assert cs[i] == init[i]; }
      }
    }
  }

  /** Last write wins: the entry under a name comes from the last clip with that name. */
  lemma {:induction false} ToMapLastWins(cs: seq<Clip>, i: nat)
    requires i < |cs|
    requires forall j :: i < j < |cs| ==> cs[j].name != cs[i].name
    ensures cs[i].name in ToMap(cs) && ToMap(cs)[cs[i].name] == Entry(cs[i].offset, cs[i].frames)
  {
    if i < |cs| - 1 {
      var init := cs[..|cs| - 1];
      assert init[i] == cs[i];
      ToMapLastWins(init, i);
    }
  }

  /** There are never more entries than clips, and exactly as many when the names are
      distinct. */
  lemma {:induction false} ToMapSize(cs: seq<Clip>)
    ensures |ToMap(cs)| <= |cs|
    ensures (forall i, j :: 0 <= i < j < |cs| ==> cs[i].name != cs[j].name) ==> |ToMap(cs)| == |cs|
  {
    if cs != [] {
      var init := cs[..|cs| - 1];
      var c := cs[|cs| - 1];
      ToMapSize(init);
      if (forall i, j :: 0 <= i < j < |cs| ==> cs[i].name != cs[j].name) {
        ToMapKeys(init);
        assert forall i :: 0 <= i < |init| ==> init[i].name != c.name by {
          forall i | 0 <= i < |init| ensures init[i].name != c.name {
            assert init[i] == cs[i];
          }
        }
        assert c.name !in ToMap(init);
      }
    }
  }

  /** Every entry comes from some clip of that name. */
  lemma {:induction false} ToMapSource(cs: seq<Clip>, n: Name)
    requires n in ToMap(cs)
    ensures exists i :: 0 <= i < |cs| && cs[i].name == n && ToMap(cs)[n] == Entry(cs[i].offset, cs[i].frames)
  {
    var init := cs[..|cs| - 1];
    if n != cs[|cs| - 1].name {
      ToMapSource(init, n);
      var i :| 0 <= i < |init| && init[i].name == n && ToMap(init)[n] == Entry(init[i].offset, init[i].frames);
      assert cs[i] == init[i];
    }
  }

  /** A clip read successfully starts with its name: reading a string at the clip's
      offset yields exactly that name. */
  lemma ReadClipStartsWithName(data: seq<byte>, skip: SkipCalculator, offs: nat)
    requires ReadClip(data, skip, offs).Success?
    ensures ReadString(data, offs) == Success((ReadClip(data, skip, offs).value.name,
      ReadClip(data, skip, offs).value.nameEnd))
  {
  }

  /** Seeking to an indexed offset and reading a string there gives back the name the entry
      is stored under: random access lands on the start of the right clip. */
  lemma IndexPointsAtName(data: seq<byte>, skip: SkipCalculator, start: nat, n: Name)
    requires IndexClips(data, skip, start).Success?
    requires n in ToMap(IndexClips(data, skip, start).value)
    ensures var e := ToMap(IndexClips(data, skip, start).value)[n];
      ReadString(data, e.offset).Success? && ReadString(data, e.offset).value.0 == n
  {
    var count := ReadU32(data, start).value;
    var read := ClipAt(data, skip);
    var cs := IndexClips(data, skip, start).value;
    ClipAtAdvances(data, skip);
    ScanChain(read, count.0, count.1);
    ToMapSource(cs, n);
    var i :| 0 <= i < |cs| && cs[i].name == n && ToMap(cs)[n] == Entry(cs[i].offset, cs[i].frames);
    assert read(cs[i].offset) == Success(cs[i]);
    ClipAtIs(data, skip, cs[i].offset);
    ReadClipStartsWithName(data, skip, cs[i].offset);
  }

  lemma InsertionOrderHas(o: seq<Name>, m: map<Name, Entry>, cs: seq<Clip>, n: Name)
    requires Distinct(o)
    requires forall n :: n in o <==> n in m
    ensures n in InsertionOrder(o, cs) <==> n in m + ToMap(cs)
  {
    InsertionOrderListsKeys(o, m, cs);
  }

  /** Python dictionaries iterate in first-insertion order: a name keeps the place of its
      first clip, and a repeated name does not move. */
  function InsertionOrder(o: seq<Name>, cs: seq<Clip>): seq<Name>
  {
    if cs == [] then o
    else
      var p := InsertionOrder(o, cs[..|cs| - 1]);
      var n := cs[|cs| - 1].name;
      if n in p then p else p + [n]
  }

  /** Starting from a listing of `m`'s keys, the order lists every key of the merged
      dictionary exactly once, and keeps the old listing as its prefix. */
  lemma {:induction false} InsertionOrderListsKeys(o: seq<Name>, m: map<Name, Entry>, cs: seq<Clip>)
    requires Distinct(o)
    requires forall n :: n in o <==> n in m
    ensures Distinct(InsertionOrder(o, cs))
    ensures forall n :: n in InsertionOrder(o, cs) <==> n in m + ToMap(cs)
    ensures o <= InsertionOrder(o, cs)
  {
    if cs != [] {
      InsertionOrderListsKeys(o, m, cs[..|cs| - 1]);
    }
  }

  // ---------------------------------------------------------------------------
  // The container file

  /** `OpBrowseSklsFile.SklsFile`: the buffer held for its whole lifetime and the index. */
  class SklsFile {
    const filePath: string
    const pr: PackedReader
    var animations: map<Name, Entry>
    /** The dictionary's iteration order, which is the order of the browser's list. */
    var order: seq<Name>

    /** `order` lists the dictionary's keys, each once. */
    ghost predicate Listed()
      reads this
    {
      Distinct(order) && forall n :: n in order <==> n in animations
    }

    /** Reading the file into memory is outside the model: the bytes are given. The index
        is built by `OpenSkls`, since a constructor that raises leaves no object behind. */
    constructor (filePath: string, data: seq<byte>)
      ensures this.filePath == filePath && fresh(pr) && pr.data == data && pr.offs == 0
      ensures animations == map[] && order == []
      ensures Listed()
    {
      this.filePath := filePath;
      pr := new PackedReader(data);
      animations := map[];
      order := [];
    }

    /** `_index_animations`: on success the dictionary is `ToMap` of the clips scanned from
        the cursor's starting position and the cursor stands after the last clip. */
    method IndexAnimations(skip: SkipCalculator) returns (r: Outcome<Error>)
      requires Listed()
      modifies this, pr
      ensures r.Pass? ==> Listed()
      ensures r.Pass? <==> IndexClips(pr.data, skip, old(pr.offs)).Success?
      ensures r.Pass? ==> var cs := IndexClips(pr.data, skip, old(pr.offs)).value;
        animations == old(animations) + ToMap(cs) && pr.offs == CursorAfter(cs, old(pr.offs) + 4)
      ensures r.Pass? ==> order == InsertionOrder(old(order), IndexClips(pr.data, skip, old(pr.offs)).value)
    {
      ghost var start := pr.offs;
      ghost var read := ClipAt(pr.data, skip);
      ghost var before := animations;
      ghost var beforeOrder := order;
      var cnt := pr.GetU32();
      if cnt.Failure? {
        return Fail(cnt.error);
      }
      var count := cnt.value;
      ghost var clips: seq<Clip> := [];
      var k := 0;
      while k < count
        invariant 0 <= k <= count
        invariant ScanClips(read, k, start + 4) == Success(clips)
        invariant pr.offs == CursorAfter(clips, start + 4)
        invariant animations == before + ToMap(clips)
        invariant order == InsertionOrder(beforeOrder, clips)
      {
        var c := IndexOne(skip);
        if c.Failure? {
          ScanFailsFrom(read, k, count, start + 4);
          return Fail(c.error);
        }
        ScanStep(read, k, start + 4, clips, c.value);
        MergeSnoc(before, clips, c.value);
        OrderSnoc(beforeOrder, clips, c.value);
        InsertionOrderHas(beforeOrder, before, clips, c.value.name);
        clips := clips + [c.value];
        k := k + 1;
      }
      assert IndexClips(pr.data, skip, start) == Success(clips);
      InsertionOrderListsKeys(beforeOrder, before, clips);
      r := Pass;
    }

    /** One iteration of the loop of `_index_animations`. The entry is stored before the
        motion is skipped, so a motion that cannot be skipped leaves it in place. */
    method IndexOne(skip: SkipCalculator) returns (r: Result<Clip, Error>)
      modifies this, pr
      ensures r == ClipAt(pr.data, skip)(old(pr.offs))
      ensures r.Success? ==> pr.offs == r.value.next
      ensures r.Success? ==>
        animations == old(animations)[r.value.name := Entry(r.value.offset, r.value.frames)]
      ensures r.Success? ==>
        order == if r.value.name in old(animations) then old(order) else old(order) + [r.value.name]
    {
      ClipAtIs(pr.data, skip, pr.offs);
      var offset := pr.offs;
      var name := pr.GetS();
      if name.Failure? {
        return Failure(name.error);
      }
      var offset2 := pr.offs;
      var range := pr.GetU32Pair();
      if range.Failure? {
        return Failure(range.error);
      }
      var frames := range.value.1 as int - range.value.0 as int;
      if name.value !in animations {
        order := order + [name.value];
      }
      animations := animations[name.value := Entry(offset, frames)];
      pr.SetOffset(offset2);
      var n := skip(pr.View());
      if n.None? {
        return Failure(BadMotion(offset2));
      }
      pr.Skip(n.value);
      r := Success(Clip(name.value, offset, offset2, frames, offset2 + n.value));
    }
  }

  lemma ClipAtIs(data: seq<byte>, skip: SkipCalculator, p: nat)
    ensures ClipAt(data, skip)(p) == ReadClip(data, skip, p)
  {
  }

  lemma ScanStep(read: ClipReader, k: nat, first: nat, cs: seq<Clip>, c: Clip)
    requires ScanClips(read, k, first) == Success(cs)
    requires read(CursorAfter(cs, first)) == Success(c)
    ensures ScanClips(read, k + 1, first) == Success(cs + [c])
  {
  }

  lemma MergeSnoc(m: map<Name, Entry>, cs: seq<Clip>, c: Clip)
    ensures m + ToMap(cs + [c]) == (m + ToMap(cs))[c.name := Entry(c.offset, c.frames)]
  {
    assert (cs + [c])[..|cs|] == cs;
  }

  lemma OrderSnoc(o: seq<Name>, cs: seq<Clip>, c: Clip)
    ensures InsertionOrder(o, cs + [c]) ==
      var p := InsertionOrder(o, cs); if c.name in p then p else p + [c.name]
  {
    assert (cs + [c])[..|cs|] == cs;
  }

  /** `OpBrowseSklsFile.SklsFile(file_path)`: read the buffer and index it; an exception
      while indexing leaves no file object. */
  method OpenSkls(filePath: string, data: seq<byte>, skip: SkipCalculator)
    returns (f: SklsFile?, r: Outcome<Error>)
    ensures r.Pass? <==> IndexClips(data, skip, 0).Success?
    ensures r.Fail? ==> f == null
    ensures r.Pass? ==> f != null && fresh(f) && fresh(f.pr) && f.pr.data == data && f.Listed()
    ensures r.Pass? ==> f.animations == ToMap(IndexClips(data, skip, 0).value)
    ensures r.Pass? ==> f.order == InsertionOrder([], IndexClips(data, skip, 0).value)
  {
    var file := new SklsFile(filePath, data);
    r := file.IndexAnimations(skip);
    if r.Pass? {
      assert map[] + ToMap(IndexClips(data, skip, 0).value) == ToMap(IndexClips(data, skip, 0).value);
      f := file;
    } else {
      f := null;
    }
  }

  // ---------------------------------------------------------------------------
  // Selecting a clip in the browser

  /** A row of the browser's list. */
  datatype Item = Item(name: Name, frames: int)

  /** The list `execute` fills: one row per dictionary key, in iteration order. */
  function Items(order: seq<Name>, index: map<Name, Entry>): (r: seq<Item>)
    requires forall n :: n in order ==> n in index
    ensures |r| == |order|
    ensures forall i :: 0 <= i < |r| ==> r[i].name == order[i] && r[i].frames == index[order[i]].frames
  {
    seq(|order|, i requires 0 <= i < |order| => Item(order[i], index[order[i]].frames))
  }

  /** The host state a selection touches: the names that have a decoded action, the action
      assigned to the armature (if it has animation data), and the name last imported. */
  datatype Scene = Scene(decoded: set<Name>, active: Option<Name>, prevName: Name)

  /** What a selection did besides updating the scene. */
  datatype Selection =
    | Unchanged              // the same clip as last time
    | Imported(offset: nat)  // the cursor was set to `offset` and the clip decoded there
    | Reused                 // an action of that name already existed and was assigned
    | Missing                // KeyError: the name is not in the index

  /** `skls_animations_index_changed` once a file is loaded and the selected row named
      `name`. The previously assigned action is removed first; a clip without an action is
      decoded after seeking to its indexed offset (the decoder creates the action named
      after the clip); then the action of that name is assigned. A `Missing` result keeps
      the removals done before the lookup failed. */
  function Select(sc: Scene, name: Name, index: map<Name, Entry>): (r: (Scene, Selection))
    ensures name == sc.prevName ==> r == (sc, Unchanged)
    ensures name != sc.prevName ==> r.0.active.None? || r.0.active == Some(name)
    ensures r.1.Imported? ==> name in index && r.1.offset == index[name].offset
    ensures r.1.Missing? ==> name !in index
    ensures r.1 != Unchanged ==>
      sc.active.Some? ==> sc.active.value !in r.0.decoded || sc.active.value == name
  {
    if name == sc.prevName then (sc, Unchanged)
    else
      var freed := if sc.active.Some? then sc.decoded - {sc.active.value} else sc.decoded;
      if name !in freed then
        if name !in index then (Scene(freed, None, sc.prevName), Missing)
        else (Scene(freed + {name}, Some(name), name), Imported(index[name].offset))
      else (Scene(freed, Some(name), sc.prevName), Reused)
  }

  /** Selecting the previously imported clip again does nothing. */
  lemma SelectAgainIsNoop(sc: Scene, name: Name, index: map<Name, Entry>)
    requires Select(sc, name, index).1.Imported?
    ensures Select(Select(sc, name, index).0, name, index) == (Select(sc, name, index).0, Unchanged)
  {
  }

  /** The browser's own actions: the decoded actions are exactly the one assigned. */
  ghost predicate HoldsOnlyActive(sc: Scene)
  {
    sc.decoded == if sc.active.Some? then {sc.active.value} else {}
  }

  /** A .skls file may hold thousands of clips; when the browser is the only source of
      actions, at most one decoded clip is kept, whatever is selected. */
  lemma SelectHoldsOne(sc: Scene, name: Name, index: map<Name, Entry>)
    requires HoldsOnlyActive(sc)
    ensures HoldsOnlyActive(Select(sc, name, index).0)
    ensures |Select(sc, name, index).0.decoded| <= 1
  {
  }

  /** Random access: an import seeks to the offset indexed for the name, where reading a
      string gives back that name. */
  lemma SelectSeeksToName(data: seq<byte>, skip: SkipCalculator, sc: Scene, name: Name)
    requires IndexClips(data, skip, 0).Success?
    requires Select(sc, name, ToMap(IndexClips(data, skip, 0).value)).1.Imported?
    ensures var off := Select(sc, name, ToMap(IndexClips(data, skip, 0).value)).1.offset;
      ReadString(data, off).Success? && ReadString(data, off).value.0 == name
  {
    IndexPointsAtName(data, skip, 0, name);
  }

  /** The list position a row number `i` names in a list of `n` rows, as a collection index
      resolves it: `0 <= i < n` is itself, `-n <= i < 0` counts from the end, and any other
      row is an IndexError. */
  function Row(i: int, n: nat): (r: Option<nat>)
    ensures r.Some? <==> -(n as int) <= i < n
    ensures r.Some? ==> r.value < n
    ensures r.Some? && i >= 0 ==> r.value == i
    ensures r.Some? && i < 0 ==> r.value == i + n
  {
    if 0 <= i < n then Some(i)
    else if -(n as int) <= i < 0 then Some(i + n)
    else None
  }

  /** `OpBrowseSklsFile.skls_file` together with the browser's list, its selected row and
      the scene. */
  class Browser {
    var file: SklsFile?
    var items: seq<Item>
    var selected: int
    var scene: Scene

    constructor ()
      ensures file == null && items == [] && selected == 0 && scene == Scene({}, None, [])
    {
      file := null;
      items := [];
      selected := 0;
      scene := Scene({}, None, []);
    }

    /** `execute`: the list is cleared before the file is read, so a file that fails to index
        leaves an empty list and the previous file. */
    method Open(filePath: string, data: seq<byte>, skip: SkipCalculator) returns (r: Outcome<Error>)
      modifies this
      ensures r.Pass? <==> IndexClips(data, skip, 0).Success?
      ensures r.Fail? ==> file == old(file) && items == []
      ensures r.Pass? ==> file != null && fresh(file) && file.pr.data == data && file.Listed()
      ensures r.Pass? ==> file.animations == ToMap(IndexClips(data, skip, 0).value)
      ensures r.Pass? ==> items == Items(file.order, file.animations)
      ensures selected == old(selected) && scene == old(scene)
    {
      items := [];
      var f;
      f, r := OpenSkls(filePath, data, skip);
      if r.Pass? {
        file := f;
        items := Items(f.order, f.animations);
      }
    }

    /** `skls_animations_index_changed`: nothing without a file; a row outside the list raises
        (a negative row counts from the end, as a collection index does); otherwise the scene
        becomes `Select`'s, and an import leaves the reader's cursor at the selected clip's
        indexed offset, where the decoder starts. */
    method IndexChanged() returns (r: Outcome<Error>)
      modifies this, if file != null then {file.pr} else {}
      ensures file == old(file) && items == old(items) && selected == old(selected)
      ensures file == null ==> r.Pass? && scene == old(scene)
      ensures file != null && Row(selected, |items|).None? ==>
        r == Fail(NoSelection(selected)) && scene == old(scene) && file.pr.offs == old(file.pr.offs)
      ensures file != null && Row(selected, |items|).Some? ==>
        var name := items[Row(selected, |items|).value].name;
        var s := Select(old(scene), name, file.animations);
        && scene == s.0
        && (r.Fail? <==> s.1.Missing?)
        && (r.Fail? ==> r.error == UnknownAnimation(name))
        && (s.1.Imported? ==> file.pr.offs == s.1.offset)
        && (!s.1.Imported? ==> file.pr.offs == old(file.pr.offs))
    {
      if file == null {
        return Pass;
      }
      var row := Row(selected, |items|);
      if row.None? {
        return Fail(NoSelection(selected));
      }
      var name := items[row.value].name;
      var s := Select(scene, name, file.animations);
      scene := s.0;
      match s.1
      case Missing =>
        r := Fail(UnknownAnimation(name));
      case Imported(offset) =>
        file.pr.SetOffset(offset);
        r := Pass;
      case _ =>
        r := Pass;
    }
  }
}
