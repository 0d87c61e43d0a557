/**
 * The spoken-length usage counter (src/lib/usage.ts): a total, a sample
 * count and a rolling window of the last ten `say` lengths, kept as JSON
 * under one local-storage key. The store is a class whose `item` field is
 * that key's value; `JSON.parse` and `JSON.stringify` are parameters.
 * Numbers are exact reals, and `Math.round` is `floor(x + 0.5)`.
 */
module Usage {
  import opened Wrappers
  import opened Json

  const Key: string := "tts:usage:v1"
  const MaxWindow: nat := 10

  datatype UsageState = UsageState(total: real, samples: real, last: seq<real>)

  const Empty: UsageState := UsageState(0.0, 0.0, [])

  function Min(a: int, b: int): int { if a <= b then a else b }

  /** `s.slice(-n)`: a suffix of `s`; for `n == 0` the whole of `s`, since `-0` is `0`. */
  function SliceLast<T>(s: seq<T>, n: int): (r: seq<T>)
    ensures |r| <= |s| && r == s[|s| - |r|..]
    ensures n > 0 ==> |r| == Min(n, |s|)
    ensures n == 0 ==> r == s
    ensures n < 0 ==> |r| == |s| - Min(-n, |s|)
  {
    var from := if -n < 0 then (if |s| - n < 0 then 0 else |s| - n) else Min(-n, |s|);
    s[from..]
  }

  /**
   * `v || 0` for a stored number. A truthy stored value that is not a
   * number is read as 0 here (the source would carry it on).
   */
  function NumberOr0(v: Val): (r: real)
    ensures v.Def? && v.j.JNum? ==> r == v.j.n
    ensures !(v.Def? && v.j.JNum?) ==> r == 0.0
  {
    if v.Def? && v.j.JNum? then v.j.n else 0.0
  }

  /** The entries of a stored `last` array, non-numbers read as 0. */
  function Numbers(items: seq<Json>): (r: seq<real>)
    ensures |r| == |items|
    ensures forall i :: 0 <= i < |items| && items[i].JNum? ==> r[i] == items[i].n
  {
    seq(|items|, i requires 0 <= i < |items| => if items[i].JNum? then items[i].n else 0.0)
  }

  /**
   * `load()`: the default state outside a browser, for a missing or empty
   * item, for text that does not parse, and for a parsed value on which
   * `p.last = []` throws (null and the primitives, in a strict-mode
   * module); otherwise the stored fields, with a non-array `last` read as
   * `[]` and only its last ten entries kept.
   */
  function Load(inBrowser: bool, item: Option<string>, parse: string -> Option<Json>): (r: UsageState)
    ensures |r.last| <= MaxWindow
    ensures !inBrowser || item.None? || item == Some([]) ==> r == Empty
    ensures inBrowser && item.Some? && item.value != [] && parse(item.value).None? ==> r == Empty
  {
    if !inBrowser then Empty
    else match item
      case None => Empty
      case Some(raw) =>
        if raw == [] then Empty
        else match parse(raw)
          case None => Empty
          case Some(p) => FromParsed(p)
  }

  /** The part of `load()` after `JSON.parse`. */
  function FromParsed(p: Json): (r: UsageState)
    ensures |r.last| <= MaxWindow
    ensures !(p.JObj? || p.JArr?) ==> r == Empty
  {
    if !(p.JObj? || p.JArr?) then Empty
    else
      var last := match OptGet(Def(p), "last")
        case Def(JArr(items)) => Numbers(items)
        case _ => [];
      UsageState(NumberOr0(OptGet(Def(p), "total")), NumberOr0(OptGet(Def(p), "samples")), SliceLast(last, MaxWindow))
  }

  /** A stored object's missing `total` and `samples` read as 0. */
  lemma MissingCountersAreZero(p: Json)
    requires p.JObj?
    ensures "total" !in p.fields ==> FromParsed(p).total == 0.0
    ensures "samples" !in p.fields ==> FromParsed(p).samples == 0.0
  {
    assert FromParsed(p).total == NumberOr0(OptGet(Def(p), "total"));
    assert FromParsed(p).samples == NumberOr0(OptGet(Def(p), "samples"));
  }

  /**
   * A stored object's missing or non-array `last` reads as the empty
   * window; an array `last` keeps its last ten entries.
   */
  lemma StoredWindow(p: Json)
    requires p.JObj?
    ensures "last" !in p.fields || !p.fields["last"].JArr? ==> FromParsed(p).last == []
    ensures "last" in p.fields && p.fields["last"].JArr? ==>
      FromParsed(p).last == SliceLast(Numbers(p.fields["last"].items), MaxWindow)
  {
    var last := match OptGet(Def(p), "last")
      case Def(JArr(items)) => Numbers(items)
      case _ => [];
    assert FromParsed(p).last == SliceLast(last, MaxWindow);
  }

  /** The state as `save` stores it. */
  function Encode(st: UsageState): Json {
    JObj(map[
      "total" := JNum(st.total),
      "samples" := JNum(st.samples),
      "last" := JArr(EncodeLast(st.last))])
  }

  function EncodeLast(last: seq<real>): (r: seq<Json>)
    ensures |r| == |last| && forall i :: 0 <= i < |last| ==> r[i] == JNum(last[i])
  {
    seq(|last|, i requires 0 <= i < |last| => JNum(last[i]))
  }

  lemma {:induction false} NumbersEncoded(last: seq<real>)
    ensures Numbers(EncodeLast(last)) == last
  {
  }

  /** What `recordSayChars(len)` makes of the loaded state. */
  function Recorded(st: UsageState, len: real): (r: UsageState)
    requires |st.last| <= MaxWindow
    ensures r.total == st.total + len && r.samples == st.samples + 1.0
    ensures 1 <= |r.last| <= MaxWindow && r.last[|r.last| - 1] == len
    ensures |st.last| < MaxWindow ==> r.last == st.last + [len]
    ensures |st.last| == MaxWindow ==> r.last == st.last[1..] + [len]
  {
    var last := st.last + [len];
    UsageState(st.total + len, st.samples + 1.0, if |last| > MaxWindow then last[1..] else last)
  }

  /** `Math.round`: the integer nearest to `x`, halves rounding up. */
  function Round(x: real): (r: int)
    ensures r as real - 0.5 <= x < r as real + 0.5
  {
    (x + 0.5).Floor
  }

  function Sum(s: seq<real>): real {
    if s == [] then 0.0 else s[0] + Sum(s[1..])
  }

  /** `getAvgChars(n)` on a loaded state: 0 for an empty window, else the rounded mean of `slice(-n)`. */
  function AvgChars(st: UsageState, n: int): (r: int)
    ensures SliceLast(st.last, n) == [] ==> r == 0
    ensures var arr := SliceLast(st.last, n);
      arr != [] ==> r as real - 0.5 <= Sum(arr) / |arr| as real < r as real + 0.5
  {
    var arr := SliceLast(st.last, n);
    if arr == [] then 0 else Round(Sum(arr) / |arr| as real)
  }

  /** `Sum` is bounded by the bounds of its entries. */
  lemma {:induction false} SumBounds(s: seq<real>, lo: real, hi: real)
    requires forall i :: 0 <= i < |s| ==> lo <= s[i] <= hi
    ensures |s| as real * lo <= Sum(s) <= |s| as real * hi
  {
    if s != [] {
      SumBounds(s[1..], lo, hi);
      assert s[0] == s[..][0];
    }
  }

  /** The average lies within the bounds of the averaged entries. */
  lemma AvgWithinBounds(st: UsageState, n: int, lo: int, hi: int)
    requires forall x :: x in SliceLast(st.last, n) ==> lo as real <= x <= hi as real
    requires SliceLast(st.last, n) != []
    ensures lo <= AvgChars(st, n) <= hi
  {
    var arr := SliceLast(st.last, n);
    MeanWithin(arr, lo as real, hi as real);
    RoundWithin(Sum(arr) / |arr| as real, lo, hi);
  }

  lemma {:induction false} MeanWithin(arr: seq<real>, lo: real, hi: real)
    requires arr != [] && forall x :: x in arr ==> lo <= x <= hi
    ensures lo <= Sum(arr) / |arr| as real <= hi
  {
    forall i | 0 <= i < |arr| ensures lo <= arr[i] <= hi {
      assert arr[i] in arr;
    }
    SumBounds(arr, lo, hi);
    MeanBetween(Sum(arr), |arr| as real, lo, hi);
  }

  lemma MeanBetween(sum: real, k: real, lo: real, hi: real)
    requires k > 0.0 && k * lo <= sum <= k * hi
    ensures lo <= sum / k <= hi
  {
  }

  lemma RoundWithin(x: real, lo: int, hi: int)
    requires lo as real <= x <= hi as real
    ensures lo <= Round(x) <= hi
  {
  }

  /** Recording after a load keeps the state a load can produce, and counts one more sample. */
  lemma RecordedSuffix(st: UsageState, len: real)
    requires |st.last| <= MaxWindow
    ensures var r := Recorded(st, len);
      r.last == (st.last + [len])[|st.last| + 1 - |r.last|..]
      && |r.last| == Min(|st.last| + 1, MaxWindow)
  {
  }

  /** A stored state loads back as itself, provided `JSON.parse` inverts `JSON.stringify` on it. */
  lemma {:induction false} LoadEncoded(st: UsageState, parse: string -> Option<Json>, stringify: Json -> string)
    requires |st.last| <= MaxWindow
    requires RoundTrips(parse, stringify, Encode(st))
    ensures Load(true, Some(stringify(Encode(st))), parse) == st
  {
    FromEncoded(st);
  }

  lemma {:induction false} FromEncoded(st: UsageState)
    requires |st.last| <= MaxWindow
    ensures FromParsed(Encode(st)) == st
  {
    EncodedFields(st);
    NumbersEncoded(st.last);
    assert SliceLast(st.last, MaxWindow) == st.last;
  }

  lemma {:induction false} EncodedFields(st: UsageState)
    ensures var p := Def(Encode(st));
      && OptGet(p, "total") == Def(JNum(st.total))
      && OptGet(p, "samples") == Def(JNum(st.samples))
      && OptGet(p, "last") == Def(JArr(EncodeLast(st.last)))
  {
    var m := Encode(st).fields;
    assert m["total"] == JNum(st.total);
    assert m["samples"] == JNum(st.samples);
    assert m["last"] == JArr(EncodeLast(st.last));
  }

  /** The local-storage slot the counter lives in. */
  class UsageStore {
    /** `typeof window !== "undefined"`. */
    const inBrowser: bool
    /** `localStorage.getItem("tts:usage:v1")`. */
    var item: Option<string>
    /** Whether `localStorage.setItem` succeeds (it throws when storage is full or disabled). */
    var writable: bool
    /** How many "usage:changed" events have been dispatched. */
    var changes: nat

    constructor(inBrowser: bool, item: Option<string>, writable: bool)
      ensures this.inBrowser == inBrowser && this.item == item && this.writable == writable
      ensures changes == 0
    {
      this.inBrowser := inBrowser;
      this.item := item;
      this.writable := writable;
      changes := 0;
    }

    function Loaded(parse: string -> Option<Json>): (r: UsageState)
      reads this
      ensures |r.last| <= MaxWindow
    {
      Load(inBrowser, item, parse)
    }

    /**
     * `save(state)`: store the JSON text and announce the change; a failed
     * write is swallowed and announces nothing.
     */
    method Save(st: UsageState, stringify: Json -> string)
      modifies this
      ensures inBrowser && writable ==> item == Some(stringify(Encode(st))) && changes == old(changes) + 1
      ensures !(inBrowser && writable) ==> item == old(item) && changes == old(changes)
      ensures writable == old(writable)
    {
      if inBrowser && writable {
        item := Some(stringify(Encode(st)));
        changes := changes + 1;
      }
    }

    /** `recordSayChars(len)`. */
    method RecordSayChars(len: real, parse: string -> Option<Json>, stringify: Json -> string)
      modifies this
      ensures inBrowser && writable ==>
        item == Some(stringify(Encode(Recorded(old(Loaded(parse)), len)))) && changes == old(changes) + 1
      ensures !(inBrowser && writable) ==> item == old(item) && changes == old(changes)
      ensures writable == old(writable)
    {
      var s := Loaded(parse);
      ghost var loaded := s;
      s := s.(total := s.total + len);
      s := s.(samples := s.samples + 1.0);
      s := s.(last := s.last + [len]);
      if |s.last| > MaxWindow {
        s := s.(last := s.last[1..]);
      }
      assert s == Recorded(loaded, len);
      Save(s, stringify);
    }

    /** `getAvgChars(n)`. */
    function GetAvgChars(n: int, parse: string -> Option<Json>): (r: int)
      reads this
      ensures SliceLast(Loaded(parse).last, n) == [] ==> r == 0
    {
      AvgChars(Loaded(parse), n)
    }
  }

  /**
   * After `recordSayChars(len)` with a successful write, the next `load`
   * sees the previous state with `len` recorded.
   */
  lemma RecordThenLoad(st: UsageState, len: real, parse: string -> Option<Json>, stringify: Json -> string)
    requires |st.last| <= MaxWindow
    requires RoundTrips(parse, stringify, Encode(Recorded(st, len)))
    ensures Load(true, Some(stringify(Encode(Recorded(st, len)))), parse) == Recorded(st, len)
  {
    LoadEncoded(Recorded(st, len), parse, stringify);
  }
}
