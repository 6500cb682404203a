/**
 * The object that owns the two ICU handles: `normalize` opens them lazily,
 * runs the UTF-8 to UTF-16 stage and the NFKC stage, and the destructor
 * closes the converter.
 */
module Posix {
  import opened Types
  import opened Icu
  import opened Retry

  /** The outcome of a `normalize` call. */
  datatype NormalizeResult =
    | Normalized(text: seq<WideChar>)
    | ConversionError        // the "String conversion error" exception
    | Fatal(what: string)    // a catastrophic error: the process exits with status 33

  /**
   * The two stages with both handles available, as intended: decode, then
   * normalize, one wide character per UTF-16 unit of the normal form.
   */
  function Pipeline(icu: Library, name: seq<Byte>): (r: NormalizeResult)
    ensures !r.Fatal?
    ensures r.ConversionError? <==> icu.toUtf16(name).Failed? || icu.nfkc(icu.toUtf16(name).units).Failed?
    ensures r.Normalized? ==>
      var normal := icu.nfkc(icu.toUtf16(name).units).units;
      |r.text| == |normal| && forall i :: 0 <= i < |normal| ==> r.text[i] as int == normal[i] as int
  {
    match icu.toUtf16(name)
    case Failed(_) => ConversionError
    case Converted(units) =>
      match icu.nfkc(units)
      case Failed(_) => ConversionError
      case Converted(normal) => Normalized(Widen(normal))
  }

  /**
   * The two stages as posixSystem.cpp runs them: both loops keep the status
   * they were given, the second stage starts from the status the first left,
   * and the second stage writes into a wide string laid out as `l`.
   */
  function PipelineAsWritten(icu: Library, name: seq<Byte>, l: Layout): (r: NormalizeResult)
    ensures !r.Fatal?
    ensures r.ConversionError? <==>
      || icu.toUtf16(name).Failed?
      || (|icu.toUtf16(name).units| <= |name| + 1 && icu.nfkc(icu.toUtf16(name).units).Failed?)
    ensures icu.toUtf16(name).Converted? && |icu.toUtf16(name).units| > |name| + 1 ==> r == Normalized([])
  {
    var one := AsWrittenOutcome(icu.toUtf16(name), |name|, ZeroError, Narrow);
    if one.failed then ConversionError
    else
      var two := AsWrittenOutcome(icu.nfkc(one.kept), one.length, one.status, l);
      if two.failed then ConversionError
      else Normalized(Elements(two.kept, two.length, l))
  }

  /**
   * When neither result outgrows its buffer by two units or more and
   * `wchar_t` takes one UTF-16 slot, the code as written agrees with the
   * intended pipeline.
   */
  lemma AsWrittenAgreesWhenFitting(icu: Library, name: seq<Byte>)
    requires icu.toUtf16(name).Converted? && |icu.toUtf16(name).units| <= |name| + 1
    requires var u := icu.toUtf16(name).units;
      icu.nfkc(u).Failed? || |icu.nfkc(u).units| <= |u| + 1
    ensures PipelineAsWritten(icu, name, Narrow) == Pipeline(icu, name)
  {
  }

  /**
   * A name whose normal form is two or more units longer than its UTF-16
   * form comes back as the empty string, whatever the layout, without
   * an error.
   */
  lemma AsWrittenLosesLongForms(icu: Library, name: seq<Byte>, l: Layout)
    requires icu.toUtf16(name).Converted? && |icu.toUtf16(name).units| <= |name| + 1
    requires var u := icu.toUtf16(name).units;
      icu.nfkc(u).Converted? && |icu.nfkc(u).units| > |u| + 1
    ensures PipelineAsWritten(icu, name, l) == Normalized([])
  {
  }

  class PosixSystem {
    var converter: Option<Handle>    // the UTF-8 converter; None is a null pointer
    var normalizer: Option<Handle>   // the NFKC instance
    var errorReported: bool

    constructor ()
      ensures converter == None && normalizer == None && !errorReported
    {
      converter := None;
      normalizer := None;
      errorReported := false;
    }

    /** The destructor: the handle passed to `ucnv_close`; the NFKC instance is never closed. */
    method Destroy() returns (closed: Option<Handle>)
      ensures closed == converter
    {
      closed := None;
      if converter.Some? {
        closed := converter;
      }
    }

    /** Whether a call starting in this state obtains both handles. */
    predicate HandlesObtainable(icu: Library)
      reads this
    {
      (converter.Some? || icu.converterOpen.Opened?) && (normalizer.Some? || icu.nfkcInstance.Opened?)
    }

    /**
     * The handles after the lazy opening: one already held is kept, a
     * missing one is asked for, and the normalizer is not asked for once
     * the converter could not be had.
     */
    twostate predicate HandlesOpened(icu: Library)
      reads this
    {
      && errorReported == old(errorReported)
      && converter == (if old(converter).Some? then old(converter)
                       else if icu.converterOpen.Opened? then Some(icu.converterOpen.handle) else None)
      && normalizer == (if old(normalizer).Some? || converter.None? then old(normalizer)
                        else if icu.nfkcInstance.Opened? then Some(icu.nfkcInstance.handle) else None)
    }

    /** The catastrophic error a missing handle causes. */
    function Missing(): Option<string>
      reads this
    {
      if converter.None? then Some("No Converter")
      else if normalizer.None? then Some("No Normalizer")
      else None
    }

    /** The opening part of `normalize`: obtain the handles, or name the one that is missing. */
    method OpenHandles(icu: Library) returns (status: Status, fatal: Option<string>)
      modifies this
      ensures HandlesOpened(icu)
      ensures fatal == Missing()
      ensures fatal.None? <==> old(HandlesObtainable(icu))
      ensures fatal.None? ==> status == ZeroError
    {
      status := ZeroError;
      fatal := None;
      if converter.None? {
        match icu.converterOpen
        case Opened(h) => converter := Some(h);
        case OpenFailed(code) => converter := None; status := code;
      }
      if Failure(status) {
        fatal := Some("No Converter");
        return;
      }
      if normalizer.None? {
        match icu.nfkcInstance
        case Opened(h) => normalizer := Some(h);
        case OpenFailed(code) => normalizer := None; status := code;
      }
      if Failure(status) {
        fatal := Some("No Normalizer");
      }
    }

    /**
     * `normalize(u8name)`, built with ICU normalization, with both loops
     * clearing the status after an overflow and the normal form read back
     * one unit per wide character.
     */
    method Normalize(icu: Library, name: seq<Byte>) returns (r: NormalizeResult)
      modifies this
      ensures HandlesOpened(icu)
      ensures Missing().Some? ==> r == Fatal(Missing().value)
      ensures Missing().None? <==> old(HandlesObtainable(icu))
      ensures Missing().None? ==> r == Pipeline(icu, name)
    {
      var status, fatal := OpenHandles(icu);
      if fatal.Some? {
        return Fatal(fatal.value);
      }
      var units, normal: seq<CodeUnit>;
      var len: nat;
      var failed: bool;
      ghost var calls: nat;
      units, len, status, failed, calls := GrowAndRetry(icu.toUtf16(name), |name|, status, Narrow);
      if failed {
        return ConversionError;
      }
      normal, len, status, failed, calls := GrowAndRetry(icu.nfkc(units), |units|, status, Narrow);
      if failed {
        return ConversionError;
      }
      r := Normalized(Widen(normal));
    }

    /**
     * `normalize(u8name)` as posixSystem.cpp writes it, on a platform whose
     * `wchar_t` is laid out as `l`.
     */
    method NormalizeAsWritten(icu: Library, name: seq<Byte>, l: Layout) returns (r: NormalizeResult)
      modifies this
      ensures HandlesOpened(icu)
      ensures Missing().Some? ==> r == Fatal(Missing().value)
      ensures Missing().None? <==> old(HandlesObtainable(icu))
      ensures Missing().None? ==> r == PipelineAsWritten(icu, name, l)
    {
      var status, fatal := OpenHandles(icu);
      if fatal.Some? {
        return Fatal(fatal.value);
      }
      var units, normal: seq<CodeUnit>;
      var len: nat;
      var failed: bool;
      ghost var calls: nat;
      units, len, status, failed, calls := GrowAndRetryAsWritten(icu.toUtf16(name), |name|, status, Narrow);
      if failed {
        return ConversionError;
      }
      normal, len, status, failed, calls := GrowAndRetryAsWritten(icu.nfkc(units), len, status, l);
      if failed {
        return ConversionError;
      }
      r := Normalized(Elements(normal, len, l));
    }

    /** `normalize(u8name)`, built with NONORMALIZE: the UTF-16 units copied one for one. */
    method NormalizeVerbatim(icu: Library, name: seq<Byte>) returns (w: seq<WideChar>)
      ensures |w| == |icu.fromUtf8(name)|
      ensures forall i :: 0 <= i < |w| ==> w[i] as int == icu.fromUtf8(name)[i] as int
    {
      var ustr := icu.fromUtf8(name);
      w := seq(|ustr|, _ => Blank as WideChar);
      var i := 0;
      while i < |ustr|
        invariant i <= |ustr| && |w| == |ustr|
        invariant forall k :: 0 <= k < i ==> w[k] as int == ustr[k] as int
      {
        w := w[i := ustr[i] as WideChar];
        i := i + 1;
      }
    }
  }

  /** A library whose handles open, with the given decoding and normalization. */
  function WorkingLibrary(toUtf16: seq<Byte> -> Conversion, nfkc: seq<CodeUnit> -> Conversion): Library
  {
    Library(Opened(1), Opened(2), toUtf16, nfkc, _ => [])
  }

  /**
   * U+FB03 (LATIN SMALL LIGATURE FFI): UTF-8 bytes EF AC 83, one UTF-16
   * unit, whose NFKC form is "ffi".
   */
  function LigatureLibrary(): Library
  {
    WorkingLibrary(
      b => if b == [0xEF, 0xAC, 0x83] then Converted([0xFB03]) else Failed(1),
      u => if u == [0xFB03] then Converted([0x66, 0x66, 0x69]) else Converted(u))
  }

  /** ASCII text, which decodes byte for byte and is its own normal form. */
  function AsciiLibrary(): Library
  {
    WorkingLibrary(
      b => Converted(seq(|b|, i requires 0 <= i < |b| => b[i] as CodeUnit)),
      u => Converted(u))
  }

  /** As written, the ligature comes back as the empty string. */
  method LigatureLostAsWritten() returns (r: NormalizeResult)
    ensures r == Normalized([])
  {
    var system := new PosixSystem();
    r := system.NormalizeAsWritten(LigatureLibrary(), [0xEF, 0xAC, 0x83], Wide(true));
    AsWrittenLosesLongForms(LigatureLibrary(), [0xEF, 0xAC, 0x83], Wide(true));
  }

  /** With the status cleared after the overflow, the ligature comes back as "ffi". */
  method LigatureKept() returns (r: NormalizeResult)
    ensures r == Normalized([0x66, 0x66, 0x69])
  {
    var system := new PosixSystem();
    r := system.Normalize(LigatureLibrary(), [0xEF, 0xAC, 0x83]);
    assert Widen([0x66, 0x66, 0x69]) == [0x66, 0x66, 0x69];
  }

  /** As written, with a little-endian 32-bit `wchar_t`, "ab" comes back as two packed elements. */
  method AbPackedAsWritten() returns (r: NormalizeResult)
    ensures r == Normalized([0x0062_0061, 0])
  {
    var system := new PosixSystem();
    r := system.NormalizeAsWritten(AsciiLibrary(), [0x61, 0x62], Wide(true));
    assert AsciiLibrary().toUtf16([0x61, 0x62]).units == [0x61, 0x62];
    PackedAb();
  }

  /** Read back one unit per wide character, "ab" comes back as "ab". */
  method AbKept() returns (r: NormalizeResult)
    ensures r == Normalized([0x61, 0x62])
  {
    var system := new PosixSystem();
    r := system.Normalize(AsciiLibrary(), [0x61, 0x62]);
    assert AsciiLibrary().toUtf16([0x61, 0x62]).units == [0x61, 0x62];
    assert Widen([0x61, 0x62]) == [0x61, 0x62];
  }
}
