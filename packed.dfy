/** Typed packed fields, standing for what `xray_io.PackedWriter.putf` and
    `PackedReader.getf` encode and decode. A chunk payload is a sequence of fields;
    the byte encoding of each field is not modelled, but the range checks that
    `struct.pack` makes on integer formats are, and a read of a field of another format
    fails as a short or malformed buffer does. */
module Packed {
  import opened Util

  datatype Field =
    | U8(b: int)      // 'B'
    | U16(h: int)     // 'H'
    | U32(i: int)     // 'I'
    | F32(f: real)    // 'f'
    | Str(s: string)  // puts / gets

  /** `struct.error`: an integer that does not fit its format. */
  datatype PackError = OutOfRange(format: char, value: int)

  const U16_LIMIT: int := 0x1_0000
  const U32_LIMIT: int := 0x1_0000_0000

  /** `putf('H', x)` as one field, or the error struct raises. */
  function PackU16(x: int): (r: Result<Field, PackError>)
    ensures r.Success? <==> 0 <= x < U16_LIMIT
    ensures r.Success? ==> r.value == U16(x)
  {
    if 0 <= x < U16_LIMIT then Success(U16(x)) else Failure(OutOfRange('H', x))
  }

  /** `putf('I', x)` as one field, or the error struct raises. */
  function PackU32(x: int): (r: Result<Field, PackError>)
    ensures r.Success? <==> 0 <= x < U32_LIMIT
    ensures r.Success? ==> r.value == U32(x)
  {
    if 0 <= x < U32_LIMIT then Success(U32(x)) else Failure(OutOfRange('I', x))
  }

  /** The three components of a float triple, `putf('fff', *v)`. */
  function Floats3(v: (real, real, real)): seq<Field>
  {
    [F32(v.0), F32(v.1), F32(v.2)]
  }

  /** `xray_io.PackedWriter`: the fields written so far. */
  class Writer {
    var fields: seq<Field>

    constructor ()
      ensures fields == []
    {
      fields := [];
    }

    method PutU16(x: int) returns (r: Outcome<PackError>)
      modifies this
      ensures r.Pass? <==> PackU16(x).Success?
      ensures r.Pass? ==> fields == old(fields) + [U16(x)]
      ensures r.Fail? ==> fields == old(fields) && r.error == PackU16(x).error
    {
      if 0 <= x < U16_LIMIT {
        fields := fields + [U16(x)];
        r := Pass;
      } else {
        r := Fail(OutOfRange('H', x));
      }
    }

    method PutU32(x: int) returns (r: Outcome<PackError>)
      modifies this
      ensures r.Pass? <==> PackU32(x).Success?
      ensures r.Pass? ==> fields == old(fields) + [U32(x)]
      ensures r.Fail? ==> fields == old(fields) && r.error == PackU32(x).error
    {
      if 0 <= x < U32_LIMIT {
        fields := fields + [U32(x)];
        r := Pass;
      } else {
        r := Fail(OutOfRange('I', x));
      }
    }

    method PutF32(x: real)
      modifies this
      ensures fields == old(fields) + [F32(x)]
    {
      fields := fields + [F32(x)];
    }

    method PutF32x3(v: (real, real, real))
      modifies this
      ensures fields == old(fields) + Floats3(v)
    {
      fields := fields + Floats3(v);
    }
  }

  /** Why a read fails: no field left (the reader's `struct.error`), or a field of another
      format, which stands for a file laid out differently from what the reader expects. */
  datatype ReadError = Truncated(pos: nat) | Mismatch(pos: nat, format: char)

  /** `f` is a value that format `format` reads: 'B', 'H', 'I' (unsigned integers of 8, 16
      and 32 bits), 'f' (a float) or 's' (a string read by `gets`). */
  predicate Fits(f: Field, format: char)
  {
    match f
    case U8(b) => format == 'B' && 0 <= b < 0x100
    case U16(h) => format == 'H' && 0 <= h < U16_LIMIT
    case U32(i) => format == 'I' && 0 <= i < U32_LIMIT
    case F32(_) => format == 'f'
    case Str(_) => format == 's'
  }

  /** One `getf(format)` (or `gets()` for 's') at `pos`. */
  function GetAt(fs: seq<Field>, pos: nat, format: char): (r: Result<Field, ReadError>)
    ensures r.Success? <==> pos < |fs| && Fits(fs[pos], format)
    ensures r.Success? ==> r.value == fs[pos]
  {
    if pos >= |fs| then Failure(Truncated(pos))
    else if Fits(fs[pos], format) then Success(fs[pos])
    else Failure(Mismatch(pos, format))
  }

  /** `getf(str(n) + format)`: `n` fields of one format read together; the read fails as
      a whole, at `pos`. */
  function GetManyAt(fs: seq<Field>, pos: nat, format: char, n: nat): (r: Result<seq<Field>, ReadError>)
    ensures r.Success? <==> (n == 0 || pos + n <= |fs|) && forall k :: pos <= k < pos + n ==> Fits(fs[k], format)
    ensures r.Success? ==> |r.value| == n && forall k :: 0 <= k < n ==> r.value[k] == fs[pos + k]
  {
    if n == 0 then Success([])
    else if pos + n > |fs| then Failure(Truncated(pos))
    else if forall k :: pos <= k < pos + n ==> Fits(fs[k], format) then Success(fs[pos..pos + n])
    else Failure(Mismatch(pos, format))
  }

  /** The integer value of an integer field (zero for the others). */
  function Num(f: Field): nat
  {
    match f
    case U8(b) => if b < 0 then 0 else b
    case U16(h) => if h < 0 then 0 else h
    case U32(i) => if i < 0 then 0 else i
    case _ => 0
  }

  /** The value of a float field (zero for the others). */
  function Real(f: Field): real
  {
    if f.F32? then f.f else 0.0
  }

  /** The value of a string field (empty for the others). */
  function Text(f: Field): string
  {
    if f.Str? then f.s else ""
  }

  /** An integer field read with its format holds exactly the number `Num` gives. */
  lemma NumOfFit(f: Field, format: char)
    requires Fits(f, format) && format in {'B', 'H', 'I'}
    ensures f == (if format == 'B' then U8(Num(f)) else if format == 'H' then U16(Num(f)) else U32(Num(f)))
    ensures format == 'B' ==> Num(f) < 0x100
    ensures format == 'H' ==> Num(f) < U16_LIMIT
    ensures format == 'I' ==> Num(f) < U32_LIMIT
  {
  }

  /** A run of `getf` calls, each a format and how many values of it one call reads ('s'
      with a count of one stands for `gets`). */
  type Layout = seq<(char, nat)>

  /** The values the calls of `layout` read from `pos` on, after the groups `acc`. */
  function GroupsFrom(acc: seq<seq<Field>>, fs: seq<Field>, pos: nat, layout: Layout): Result<seq<seq<Field>>, ReadError>
    decreases |layout|
  {
    if layout == [] then Success(acc)
    else
      var g :- GetManyAt(fs, pos, layout[0].0, layout[0].1);
      GroupsFrom(acc + [g], fs, pos + layout[0].1, layout[1..])
  }

  /** Fields taken by a layout. */
  function Width(layout: Layout): nat
    decreases |layout|
  {
    if layout == [] then 0 else layout[0].1 + Width(layout[1..])
  }

  /** The number of fields in a run of groups. */
  function Count(gs: seq<seq<Field>>): nat
  {
    if gs == [] then 0 else Count(gs[..|gs| - 1]) + |gs[|gs| - 1]|
  }

  /** A layout read takes exactly the layout's width in fields. */
  lemma {:induction false} GroupsWidth(acc: seq<seq<Field>>, fs: seq<Field>, pos: nat, layout: Layout)
    requires GroupsFrom(acc, fs, pos, layout).Success?
    ensures Count(GroupsFrom(acc, fs, pos, layout).value) == Count(acc) + Width(layout)
    decreases |layout|
  {
    if layout != [] {
      var g := GetManyAt(fs, pos, layout[0].0, layout[0].1).value;
      GroupsWidth(acc + [g], fs, pos + layout[0].1, layout[1..]);
      assert (acc + [g])[..|acc|] == acc;
    }
  }

  /** `g` is what one call `(format, count)` reads. */
  predicate GroupFits(g: seq<Field>, call: (char, nat))
  {
    |g| == call.1 && forall k :: 0 <= k < |g| ==> Fits(g[k], call.0)
  }

  /** Group `i` of a layout read holds exactly `layout[i].1` fields of format `layout[i].0`,
      and the groups read before stay in front. */
  lemma {:induction false} GroupsShape(acc: seq<seq<Field>>, fs: seq<Field>, pos: nat, layout: Layout)
    requires GroupsFrom(acc, fs, pos, layout).Success?
    ensures var r := GroupsFrom(acc, fs, pos, layout).value;
      |r| == |acc| + |layout| && r[..|acc|] == acc &&
      forall i :: 0 <= i < |layout| ==> GroupFits(r[|acc| + i], layout[i])
    decreases |layout|
  {
    if layout != [] {
      var g := GetManyAt(fs, pos, layout[0].0, layout[0].1).value;
      GroupsShape(acc + [g], fs, pos + layout[0].1, layout[1..]);
      var r := GroupsFrom(acc, fs, pos, layout).value;
      assert r[..|acc| + 1][..|acc|] == acc;
      forall i | 0 < i < |layout|
        ensures GroupFits(r[|acc| + i], layout[i])
      {
        assert layout[1..][i - 1] == layout[i];
        assert |acc| + i == |acc + [g]| + (i - 1);
      }
    }
  }

  /** `xray_io.PackedReader` over the fields of one chunk. */
  class Reader {
    const fs: seq<Field>
    var pos: nat

    constructor (fs: seq<Field>)
      ensures this.fs == fs && pos == 0
    {
      this.fs := fs;
      pos := 0;
    }

    method Get(format: char) returns (r: Result<Field, ReadError>)
      modifies this
      ensures r == GetAt(fs, old(pos), format)
      ensures pos == if r.Success? then old(pos) + 1 else old(pos)
    {
      r := GetAt(fs, pos, format);
      if r.Success? {
        pos := pos + 1;
      }
    }

    method GetMany(format: char, n: nat) returns (r: Result<seq<Field>, ReadError>)
      modifies this
      ensures r == GetManyAt(fs, old(pos), format, n)
      ensures pos == if r.Success? then old(pos) + n else old(pos)
    {
      var start := pos;
      var i := 0;
      while i < n
        invariant 0 <= i <= n && pos == start + i
        invariant GetManyAt(fs, start, format, i).Success?
        invariant pos <= |fs| || i == 0
        invariant forall k :: start <= k < pos ==> Fits(fs[k], format)
      {
        if pos >= |fs| || !Fits(fs[pos], format) {
          pos := start;
          GetManyFirstFailure(fs, start, format, n, i);
          return GetManyAt(fs, start, format, n);
        }
        pos := pos + 1;
        i := i + 1;
      }
      r := GetManyAt(fs, start, format, n);
    }

    /** The calls of `layout`, one after another. */
    method GetLayout(layout: Layout) returns (r: Result<seq<seq<Field>>, ReadError>)
      modifies this
      ensures r == GroupsFrom([], fs, old(pos), layout)
      ensures r.Success? ==> pos == old(pos) + Count(r.value)
    {
      var acc: seq<seq<Field>> := [];
      var j := 0;
      while j < |layout|
        invariant j <= |layout|
        invariant GroupsFrom(acc, fs, pos, layout[j..]) == GroupsFrom([], fs, old(pos), layout)
        invariant pos == old(pos) + Count(acc)
      {
        assert layout[j..][1..] == layout[j + 1..];
        var g := GetMany(layout[j].0, layout[j].1);
        if g.Failure? {
          return Failure(g.error);
        }
        assert (acc + [g.value])[..|acc|] == acc;
        acc := acc + [g.value];
        j := j + 1;
      }
      r := Success(acc);
    }
  }

  /** A batch read fails at a field that does not fit. */
  lemma GetManyFirstFailure(fs: seq<Field>, pos: nat, format: char, n: nat, i: nat)
    requires i < n
    requires !(pos + i < |fs| && Fits(fs[pos + i], format))
    ensures GetManyAt(fs, pos, format, n).Failure?
  {
    if pos + n <= |fs| {
      assert pos <= pos + i < pos + n;
    }
  }
}
