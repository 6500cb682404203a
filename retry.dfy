/**
 * The grow-and-retry loop `normalize` runs twice: call the conversion into a
 * string buffer of the current length (with room for a terminator), and when
 * the reported size does not fit, resize to the size plus one and call again.
 *
 * ICU writes UTF-16 units. The first stage's buffer is a `std::u16string`,
 * one unit per element; the second stage's is a `std::wstring` whose storage
 * is handed to ICU as UTF-16, so with a 32-bit `wchar_t` two units share one
 * element. A buffer is therefore modelled by its UTF-16 slots: the slots of
 * its `len` elements followed by those of its terminator element.
 */
module Retry {
  import opened Types
  import opened Icu

  /** How string elements lie over UTF-16 slots: one slot each, or two (a 32-bit `wchar_t`). */
  datatype Layout = Narrow | Wide(littleEndian: bool)

  /** The number of slots `n` elements take. */
  function Width(l: Layout, n: nat): nat
  {
    if l.Narrow? then n else 2 * n
  }

  /** Slot `j` of a run of blank (`L' '`) elements. */
  function BlankSlot(l: Layout, j: nat): CodeUnit
  {
    match l
    case Narrow => Blank
    case Wide(little) => if (j % 2 == 0) == little then Blank else 0
  }

  /** Slot `j` of a buffer of `len` blanks and its terminator, as the string constructor leaves it. */
  function Pristine(l: Layout, len: nat, j: nat): CodeUnit
  {
    if j < Width(l, len) then BlankSlot(l, j) else 0
  }

  /** `n` blank (`L' '`) characters. */
  function Blanks(n: nat): (r: seq<WideChar>)
  {
    seq(n, _ => Blank as WideChar)
  }

  /** `std::basic_string(n, L' ')`, slot by slot. */
  function Fresh(l: Layout, n: nat): (r: seq<CodeUnit>)
    ensures |r| == Width(l, n + 1)
    ensures forall j :: 0 <= j < |r| ==> r[j] == Pristine(l, n, j)
  {
    seq(Width(l, n + 1), j requires 0 <= j => Pristine(l, n, j))
  }

  /** Read element by element, a new string is `n` blanks followed by its terminator. */
  lemma FreshReadsBlanks(l: Layout, n: nat)
    ensures Elements(Fresh(l, n), n + 1, l) == Blanks(n) + [0]
  {
    ReadBack(Fresh(l, n), [], 0, n, l);
    assert Elements([], 0, l) == [];
  }

  /** `resize(n, L' ')` of a string of `len` elements, slot by slot. */
  function ResizeSlots(slots: seq<CodeUnit>, len: nat, n: nat, l: Layout): (r: seq<CodeUnit>)
    requires |slots| == Width(l, len + 1)
    ensures |r| == Width(l, n + 1)
    ensures forall j :: 0 <= j < |r| && j < Width(l, if n <= len then n else len) ==> r[j] == slots[j]
    ensures forall j :: Width(l, if n <= len then n else len) <= j < |r| ==> r[j] == Pristine(l, n, j)
  {
    var keep := Width(l, if n <= len then n else len);
    slots[..keep] + seq(Width(l, n + 1) - keep, i requires 0 <= i => Pristine(l, n, keep + i))
  }

  /**
   * Read element by element, `resize(n, L' ')` keeps the first `n`
   * elements (all of them when it grows), adds blanks, and ends with a
   * terminator.
   */
  lemma ResizeReads(slots: seq<CodeUnit>, len: nat, n: nat, l: Layout)
    requires |slots| == Width(l, len + 1)
    ensures var m := if n <= len then n else len;
      Elements(ResizeSlots(slots, len, n, l), n + 1, l) == Elements(slots, m, l) + Blanks(n - m) + [0]
  {
    ReadBack(ResizeSlots(slots, len, n, l), slots, if n <= len then n else len, n, l);
  }

  /**
   * A buffer of `n` elements whose slots are those of `slots` for the
   * first `m` elements and blank after them reads as those `m` elements,
   * blanks, and the terminator.
   */
  lemma ReadBack(r: seq<CodeUnit>, slots: seq<CodeUnit>, m: nat, n: nat, l: Layout)
    requires m <= n && |r| == Width(l, n + 1) && Width(l, m) <= |slots|
    requires forall j :: 0 <= j < Width(l, m) ==> r[j] == slots[j]
    requires forall j :: Width(l, m) <= j < |r| ==> r[j] == Pristine(l, n, j)
    ensures Elements(r, n + 1, l) == Elements(slots, m, l) + Blanks(n - m) + [0]
  {
    var read := Elements(slots, m, l) + Blanks(n - m) + [0];
    forall e | 0 <= e < n + 1
      ensures Elements(r, n + 1, l)[e] == read[e]
    {
      if e < m {
        assert read[e] == Element(slots, e, l);
        SameElement(r, slots, e, l);
      } else if e < n {
        assert read[e] == Blank as WideChar;
        PristineElement(r, n, e, l);
      } else {
        assert read[e] == 0;
        PristineElement(r, n, e, l);
      }
    }
  }

  /** Two buffers agreeing on an element's slots agree on the element. */
  lemma SameElement(r: seq<CodeUnit>, slots: seq<CodeUnit>, e: nat, l: Layout)
    requires Width(l, e + 1) <= |r| && Width(l, e + 1) <= |slots|
    requires forall j :: Width(l, e) <= j < Width(l, e + 1) ==> r[j] == slots[j]
    ensures Element(r, e, l) == Element(slots, e, l)
  {
    if l.Wide? {
      assert r[2 * e] == slots[2 * e] && r[2 * e + 1] == slots[2 * e + 1];
    }
  }

  /** An element whose slots are as the string constructor leaves them: a blank, or the terminator. */
  lemma PristineElement(r: seq<CodeUnit>, n: nat, e: nat, l: Layout)
    requires e <= n && Width(l, e + 1) <= |r|
    requires forall j :: Width(l, e) <= j < Width(l, e + 1) ==> r[j] == Pristine(l, n, j)
    ensures Element(r, e, l) == if e < n then Blank as WideChar else 0
  {
    if l.Wide? {
      assert r[2 * e] == Pristine(l, n, 2 * e) && r[2 * e + 1] == Pristine(l, n, 2 * e + 1);
    }
  }

  /** The slots after a call stored `w` at the start of the buffer. */
  function Write(slots: seq<CodeUnit>, w: seq<CodeUnit>): seq<CodeUnit>
    requires |w| <= |slots|
  {
    w + slots[|w|..]
  }

  /**
   * The elements' slots in a buffer of `|w|` elements into which a call
   * stored `w` and a terminating 0, the rest being blanks: with two slots
   * per element, the units fill the first half and the 0 and blank slots
   * the second.
   */
  function KeptSlots(w: seq<CodeUnit>, l: Layout): (r: seq<CodeUnit>)
    ensures |r| == Width(l, |w|)
    ensures forall j :: 0 <= j < |w| ==> r[j] == w[j]
    ensures l.Narrow? ==> r == w
    ensures l.Wide? && w != [] ==> r[|w|] == 0
    ensures forall j :: |w| < j < |r| ==> r[j] == BlankSlot(l, j)
  {
    seq(Width(l, |w|), j requires 0 <= j < Width(l, |w|) =>
      if j < |w| then w[j] else if j == |w| then 0 else BlankSlot(l, j))
  }

  /** Element `e` of a buffer: its slot, or its two slots read in the layout's byte order. */
  function Element(slots: seq<CodeUnit>, e: nat, l: Layout): WideChar
    requires Width(l, e + 1) <= |slots|
  {
    match l
    case Narrow => slots[e] as WideChar
    case Wide(little) =>
      var lo, hi := if little then slots[2 * e] else slots[2 * e + 1], if little then slots[2 * e + 1] else slots[2 * e];
      (lo as int + 0x1_0000 * hi as int) as WideChar
  }

  /** The first `n` elements of a buffer. */
  function Elements(slots: seq<CodeUnit>, n: nat, l: Layout): seq<WideChar>
    requires Width(l, n) <= |slots|
  {
    seq(n, e requires 0 <= e < n => Element(slots, e, l))
  }

  /** Each code unit stored in one wide character: what `normalize` is meant to return. */
  function Widen(units: seq<CodeUnit>): (w: seq<WideChar>)
    ensures |w| == |units|
    ensures forall i :: 0 <= i < |w| ==> w[i] as int == units[i] as int
  {
    if units == [] then [] else [units[0] as WideChar] + Widen(units[1..])
  }

  /** With one slot per element the buffer holds the units one for one. */
  lemma NarrowElementsWiden(w: seq<CodeUnit>)
    ensures Elements(KeptSlots(w, Narrow), |w|, Narrow) == Widen(w)
  {
  }

  /**
   * With a little-endian 32-bit `wchar_t`, each kept element packs two
   * consecutive units, the first in its low half.
   */
  lemma PackedPairs(w: seq<CodeUnit>, e: nat)
    requires 2 * e + 1 < |w|
    ensures Elements(KeptSlots(w, Wide(true)), |w|, Wide(true))[e] as int
            == w[2 * e] as int + 0x1_0000 * w[2 * e + 1] as int
  {
  }

  /** So as soon as the second unit is not 0, the kept elements are not the units. */
  lemma PackedIsNotWidened(w: seq<CodeUnit>)
    requires |w| >= 2 && w[1] != 0
    ensures Elements(KeptSlots(w, Wide(true)), |w|, Wide(true)) != Widen(w)
  {
  }

  /** "ab" comes back as one element holding both letters, then a 0. */
  lemma PackedAb()
    ensures Elements(KeptSlots([0x61, 0x62], Wide(true)), 2, Wide(true)) == [0x0062_0061, 0]
  {
  }

  /** What one run of the loop leaves: the error branch taken, the status, the string's elements. */
  datatype Outcome = Outcome(failed: bool, status: Status, length: nat, kept: seq<CodeUnit>)

  /**
   * The loop as posixSystem.cpp writes it. A status that is already a
   * failure makes every call do nothing. A result of at most one unit more
   * than the buffer is kept (the exact fit after one retry). A longer one is
   * not: the retry is entered with U_BUFFER_OVERFLOW_ERROR, does nothing and
   * reports 0, and the string is cut to nothing, with that status left in
   * place for the next stage.
   */
  function AsWrittenOutcome(c: Conversion, length: nat, status0: Status, l: Layout): (o: Outcome)
    ensures !o.failed ==> |o.kept| == Width(l, o.length)
    ensures Failure(status0) ==> o == Outcome(status0 != BufferOverflowError, status0, 0, [])
    ensures !Failure(status0) ==> (o.failed <==> c.Failed?)
    ensures !Failure(status0) && c.Failed? ==> o.status == c.code
    ensures !Failure(status0) && c.Converted? && |c.units| <= length + 1 ==>
              o.length == |c.units| && o.kept == KeptSlots(c.units, l) && !Failure(o.status)
    ensures !Failure(status0) && c.Converted? && |c.units| > length + 1 ==>
              o == Outcome(false, BufferOverflowError, 0, [])
  {
    if Failure(status0) then Outcome(status0 != BufferOverflowError, status0, 0, [])
    else match c
      case Failed(code) => Outcome(true, code, 0, [])
      case Converted(u) =>
        if |u| > length + 1 then Outcome(false, BufferOverflowError, 0, [])
        else
          var s := if |u| == length + 1 || status0 == StringNotTerminatedWarning then ZeroError else status0;
          Outcome(false, s, |u|, KeptSlots(u, l))
  }

  /**
   * The loop's last call stored `u` and a 0 into a buffer of `len` elements
   * whose slots past `u` are still blank; resizing to `|u|` keeps exactly
   * `KeptSlots(u, l)`.
   */
  lemma ResizeAfterFit(slots: seq<CodeUnit>, len: nat, u: seq<CodeUnit>, l: Layout)
    requires |slots| == Width(l, len + 1) && |u| <= len
    requires forall j :: 0 <= j < |u| ==> slots[j] == u[j]
    requires slots[|u|] == 0
    requires forall j :: |u| < j < |slots| ==> slots[j] == Pristine(l, len, j)
    ensures ResizeSlots(slots, len, |u|, l)[..Width(l, |u|)] == KeptSlots(u, l)
  {
  }

  /** `resize` to a larger size leaves blank every slot that was blank from `mark` on. */
  lemma GrowKeepsBlanks(slots: seq<CodeUnit>, len: nat, n: nat, l: Layout, mark: nat)
    requires |slots| == Width(l, len + 1) && len <= n
    requires forall j :: mark <= j < |slots| ==> slots[j] == Pristine(l, len, j)
    ensures forall j :: mark <= j < Width(l, n + 1) ==> ResizeSlots(slots, len, n, l)[j] == Pristine(l, n, j)
  {
  }

  /**
   * The loop as written, run on the buffer's slots; `failed` is the branch
   * that raises the conversion error, and `kept` the string's slots at the
   * end.
   */
  method GrowAndRetryAsWritten(c: Conversion, length: nat, status0: Status, l: Layout)
    returns (kept: seq<CodeUnit>, len: nat, status: Status, failed: bool, ghost calls: nat)
    ensures var o := AsWrittenOutcome(c, length, status0, l);
      failed == o.failed && status == o.status && (!failed ==> len == o.length && kept == o.kept)
    ensures 1 <= calls <= 2
  {
    var slots := Fresh(l, length);
    len := length;
    kept := [];
    status := status0;
    failed := false;
    calls := 0;
    while true
      invariant calls <= 1
      invariant |slots| == Width(l, len + 1)
      invariant calls == 0 ==>
        && len == length && status == status0
        && forall j :: 0 <= j < |slots| ==> slots[j] == Pristine(l, len, j)
      invariant calls == 1 ==>
        && !Failure(status0) && c.Converted? && |c.units| > length && len == |c.units| + 1
        && status == (if |c.units| == length + 1 then StringNotTerminatedWarning else BufferOverflowError)
        && forall j :: |c.units| <= j < |slots| ==> slots[j] == Pristine(l, len, j)
      decreases 1 - calls
    {
      ghost var entering := status;
      var reply := Preflight(c, len + 1, status);
      calls := calls + 1;
      status := reply.status;
      slots := Write(slots, reply.written);
      if Failure(status) && status != BufferOverflowError {
        failed := true;
        return;
      }
      if reply.size <= len {
        if !Failure(entering) {
          ResizeAfterFit(slots, len, c.units, l);
        }
        slots := ResizeSlots(slots, len, reply.size, l);
        len := reply.size;
        kept := slots[..Width(l, len)];
        return;
      }
      GrowKeepsBlanks(slots, len, reply.size + 1, l, |c.units|);
      slots := ResizeSlots(slots, len, reply.size + 1, l);
      len := reply.size + 1;
    }
  }

  /**
   * The loop with the status cleared after U_BUFFER_OVERFLOW_ERROR, so that
   * the retry, given the reported size, completes the conversion.
   */
  method GrowAndRetry(c: Conversion, length: nat, status0: Status, l: Layout)
    returns (kept: seq<CodeUnit>, len: nat, status: Status, failed: bool, ghost calls: nat)
    ensures Failure(status0) ==> failed == (status0 != BufferOverflowError) && (!failed ==> len == 0 && kept == [])
    ensures !Failure(status0) ==> (failed <==> c.Failed?)
    ensures !Failure(status0) && c.Converted? ==>
              len == |c.units| && kept == KeptSlots(c.units, l) && !Failure(status)
    ensures 1 <= calls <= 2
  {
    var slots := Fresh(l, length);
    len := length;
    kept := [];
    status := status0;
    failed := false;
    calls := 0;
    while true
      invariant calls <= 1
      invariant |slots| == Width(l, len + 1)
      invariant calls == 0 ==>
        && len == length && status == status0
        && forall j :: 0 <= j < |slots| ==> slots[j] == Pristine(l, len, j)
      invariant calls == 1 ==>
        && !Failure(status0) && !Failure(status) && c.Converted? && len == |c.units| + 1
        && forall j :: |c.units| <= j < |slots| ==> slots[j] == Pristine(l, len, j)
      decreases 1 - calls
    {
      ghost var entering := status;
      var reply := Preflight(c, len + 1, status);
      calls := calls + 1;
      status := reply.status;
      slots := Write(slots, reply.written);
      if Failure(status) && status != BufferOverflowError {
        failed := true;
        return;
      }
      if reply.size <= len {
        if !Failure(entering) {
          ResizeAfterFit(slots, len, c.units, l);
        }
        slots := ResizeSlots(slots, len, reply.size, l);
        len := reply.size;
        kept := slots[..Width(l, len)];
        return;
      }
      if status == BufferOverflowError {
        status := ZeroError;
      }
      GrowKeepsBlanks(slots, len, reply.size + 1, l, |c.units|);
      slots := ResizeSlots(slots, len, reply.size + 1, l);
      len := reply.size + 1;
    }
  }
}
