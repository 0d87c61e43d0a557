/**
 * The transcript buffers shared by the two recogniser hooks
 * (src/hooks/useSTT.ts and src/hooks/useSpeechRecognition.ts, whose
 * `onresult` handlers and buffer joins are the same code): collecting the
 * final and interim pieces of a result event, merging finals into the final
 * buffer, the live text shown while listening, and the text submitted at the
 * end.
 */
module Transcript {
  import opened Text

  /** One entry of `e.results`: its first alternative's transcript and whether it is final. */
  datatype Result = Result(transcript: string, isFinal: bool)

  /** `acc += (acc ? " " : "") + tx`. */
  function Glue(acc: string, tx: string): (r: string)
    ensures acc == [] ==> r == tx
    ensures acc != [] ==> r == acc + " " + tx
  {
    if acc == [] then tx else acc + " " + tx
  }

  /** The transcripts of the results of one kind, in order. */
  function Pick(rs: seq<Result>, final: bool): (r: seq<string>)
    ensures |r| <= |rs|
  {
    if rs == [] then []
    else
      var last := rs[|rs| - 1];
      Pick(rs[..|rs| - 1], final) + (if last.isFinal == final then [last.transcript] else [])
  }

  /** What the loop builds from a list of transcripts by repeated `Glue`. */
  function Accumulate(txs: seq<string>): string {
    if txs == [] then [] else Glue(Accumulate(txs[..|txs| - 1]), txs[|txs| - 1])
  }

  function Min(a: nat, b: nat): nat { if a <= b then a else b }

  lemma {:induction false} PickStep(rs: seq<Result>, from: nat, i: nat, final: bool)
    requires from <= i < |rs|
    ensures Pick(rs[from..i + 1], final)
      == Pick(rs[from..i], final) + (if rs[i].isFinal == final then [rs[i].transcript] else [])
  {
    var s := rs[from..i + 1];
    assert s[..|s| - 1] == rs[from..i];
  }

  lemma {:induction false} AccumulateSnoc(txs: seq<string>, tx: string)
    ensures Accumulate(txs + [tx]) == Glue(Accumulate(txs), tx)
  {
    assert (txs + [tx])[..|txs|] == txs;
  }

  /** One more result extends the accumulation of its own kind only. */
  lemma {:induction false} AccumulateStep(rs: seq<Result>, from: nat, i: nat, final: bool)
    requires from <= i < |rs|
    ensures Accumulate(Pick(rs[from..i + 1], final)) ==
      if rs[i].isFinal == final then Glue(Accumulate(Pick(rs[from..i], final)), rs[i].transcript)
      else Accumulate(Pick(rs[from..i], final))
  {
    PickStep(rs, from, i, final);
    var p := Pick(rs[from..i], final);
    if rs[i].isFinal == final {
      AccumulateSnoc(p, rs[i].transcript);
    } else {
      assert p + [] == p;
    }
  }

  /**
   * The `onresult` loop over `e.results` from `e.resultIndex`: the final
   * transcripts and the interim ones, each glued with single spaces.
   */
  method CollectResults(results: seq<Result>, resultIndex: nat) returns (finals: string, interim: string)
    ensures finals == Accumulate(Pick(results[Min(resultIndex, |results|)..], true))
    ensures interim == Accumulate(Pick(results[Min(resultIndex, |results|)..], false))
  {
    finals := "";
    interim := "";
    var from := Min(resultIndex, |results|);
    var i := from;
    while i < |results|
      invariant from <= i <= |results|
      invariant finals == Accumulate(Pick(results[from..i], true))
      invariant interim == Accumulate(Pick(results[from..i], false))
    {
      var r := results[i];
      CollectStep(results, from, i, finals, true);
      CollectStep(results, from, i, interim, false);
      finals := if r.isFinal then Glue(finals, r.transcript) else finals;
      interim := if r.isFinal then interim else Glue(interim, r.transcript);
      i := i + 1;
    }
    CollectDone(results, from, true);
    CollectDone(results, from, false);
  }

  /** One result of the loop: it extends the buffer of its own kind and leaves the other alone. */
  lemma CollectStep(rs: seq<Result>, from: nat, i: nat, acc: string, final: bool)
    requires from <= i < |rs| && acc == Accumulate(Pick(rs[from..i], final))
    ensures (if rs[i].isFinal == final then Glue(acc, rs[i].transcript) else acc) == Accumulate(Pick(rs[from..i + 1], final))
  {
    AccumulateStep(rs, from, i, final);
  }

  lemma CollectDone(rs: seq<Result>, from: nat, final: bool)
    requires from <= |rs|
    ensures Accumulate(Pick(rs[from..|rs|], final)) == Accumulate(Pick(rs[from..], final))
  {
    assert rs[from..|rs|] == rs[from..];
  }

  lemma {:induction false} JoinSnoc(xs: seq<string>, x: string, sep: string)
    requires xs != []
    ensures Join(xs + [x], sep) == Join(xs, sep) + sep + x
    decreases |xs|
  {
    if |xs| == 1 {
      assert (xs + [x])[1..] == [x];
    } else {
      assert (xs + [x])[1..] == xs[1..] + [x];
      JoinSnoc(xs[1..], x, sep);
    }
  }

  /** When no transcript is empty, the loop's gluing is `join(" ")`. */
  lemma {:induction false} AccumulateIsJoin(txs: seq<string>)
    requires forall i :: 0 <= i < |txs| ==> txs[i] != []
    ensures Accumulate(txs) == Join(txs, " ")
    ensures txs != [] ==> Accumulate(txs) != []
    decreases |txs|
  {
    if txs != [] {
      var init := txs[..|txs| - 1];
      AccumulateIsJoin(init);
      if init != [] {
        JoinSnoc(init, txs[|txs| - 1], " ");
      }
      assert txs == init + [txs[|txs| - 1]];
    }
  }

  /**
   * `if (finals) final = [final, finals].filter(Boolean).join(" ")`: new
   * final pieces extend the final buffer after one space; no pieces leave it
   * alone.
   */
  function MergeFinals(final: string, finals: string): (r: string)
    ensures finals == [] ==> r == final
    ensures finals != [] && final == [] ==> r == finals
    ensures finals != [] && final != [] ==> r == final + " " + finals
  {
    PairJoin(final, finals);
    if finals == [] then final else Join(NonEmpty([final, finals]), " ")
  }

  lemma PairJoin(a: string, b: string)
    ensures Join(NonEmpty([a, b]), " ") ==
      if a == [] then b else if b == [] then a else a + " " + b
  {
    assert [a, b][1..] == [b];
    if a == [] {
      assert NonEmpty([a, b]) == NonEmpty([b]);
      assert [b][1..] == [];
    } else {
      assert [b][1..] == [];
      if b == [] {
        assert NonEmpty([a, b]) == [a];
      } else {
        assert NonEmpty([a, b]) == [a, b];
      }
    }
  }

  /**
   * The live text: the non-empty buffers joined by spaces, `\s` runs
   * collapsed. It never holds a run of whitespace, nor any `\s` other than
   * a plain space.
   */
  function LiveText(base: string, final: string, interim: string): (r: string)
    ensures SingleSpaced(r)
  {
    CollapseSpaces(Join(NonEmpty([base, final, interim]), " "))
  }

  /** Text that is non-empty, single-spaced and trimmed. */
  predicate Tidy(s: string) {
    s != [] && SingleSpaced(s) && !IsSpace(s[0]) && !IsSpace(s[|s| - 1])
  }

  /** Two tidy texts joined by one space are tidy. */
  lemma {:induction false} TidyGlue(a: string, b: string)
    requires Tidy(a) && Tidy(b)
    ensures Tidy(a + " " + b)
  {
    var s := a + " " + b;
    forall i | 0 <= i < |s| && IsSpace(s[i]) ensures s[i] == ' ' {
      if i < |a| { assert s[i] == a[i]; }
      else if i > |a| { assert s[i] == b[i - |a| - 1]; }
    }
    forall i, j | 0 <= i < |s| && 0 <= j < |s| && j == i + 1 && IsSpace(s[i]) ensures !IsSpace(s[j]) {
      if i < |a| - 1 {
        assert s[i] == a[i] && s[j] == a[j];
      } else if i == |a| {
        assert s[j] == b[0];
      } else {
        assert s[i] == b[i - |a| - 1] && s[j] == b[j - |a| - 1];
      }
    }
    assert s[0] == a[0] && s[|s| - 1] == b[|b| - 1];
  }

  /**
   * On tidy buffers the live text is exactly base, final and interim
   * separated by single spaces.
   */
  lemma LiveTextOfTidy(base: string, final: string, interim: string)
    requires Tidy(base) && Tidy(final) && Tidy(interim)
    ensures LiveText(base, final, interim) == base + " " + final + " " + interim
  {
    var parts := [base, final, interim];
    assert parts[1..] == [final, interim] && [final, interim][1..] == [interim] && [interim][1..] == [];
    assert NonEmpty([interim]) == [interim];
    assert NonEmpty([final, interim]) == [final] + [interim];
    assert NonEmpty(parts) == [base] + [final, interim];
    assert [base] + [final, interim] == parts;
    assert Join([final, interim], " ") == final + " " + interim;
    assert Join(parts, " ") == base + " " + (final + " " + interim);
    var joined := base + " " + final + " " + interim;
    assert base + " " + (final + " " + interim) == joined;
    TidyGlue(base, final);
    TidyGlue(base + " " + final, interim);
    CollapseSingleSpaced(joined);
  }

  /**
   * The submitted text: base and final joined, collapsed and trimmed, so
   * single-spaced with no whitespace at either end.
   */
  function SubmitText(base: string, final: string): (r: string)
    ensures SingleSpaced(r) && (r == [] || (!IsSpace(r[0]) && !IsSpace(r[|r| - 1])))
  {
    var joined := Join(NonEmpty([base, final]), " ");
    var sq := Squish(joined);
    assert SingleSpaced(sq);
    sq
  }

  /** The collapse keeps a non-space character, so only blank text collapses to blank. */
  lemma {:induction false} CollapseNonBlank(s: string)
    requires !IsBlank(s)
    ensures !IsBlank(CollapseSpaces(s))
    decreases |s|
  {
    var r := CollapseSpaces(s);
    if !IsSpace(s[0]) {
      assert !IsSpace(r[0]);
    } else {
      var t := TrimStart(s);
      var j :| 0 <= j < |s| && !IsSpace(s[j]);
      assert j >= |s| - |t|;
      assert t[j - (|s| - |t|)] == s[j];
      assert |t| < |s|;
      CollapseNonBlank(t);
      var c := CollapseSpaces(t);
      assert r == [' '] + c;
      var k :| 0 <= k < |c| && !IsSpace(c[k]);
      assert r[k + 1] == c[k];
    }
  }

  /** Squishing gives the empty text exactly for blank input. */
  lemma SquishEmptyIffBlank(s: string)
    ensures Squish(s) == [] <==> IsBlank(s)
  {
    if IsBlank(s) {
      SquishBlank(s);
    } else {
      CollapseNonBlank(s);
      TrimEmptyIffBlank(CollapseSpaces(s));
      assert Squish(s) == Trim(CollapseSpaces(s));
    }
  }

  lemma {:induction false} JoinSpaceBlank(a: string, b: string)
    ensures IsBlank(a + " " + b) <==> IsBlank(a) && IsBlank(b)
  {
    var s := a + " " + b;
    if IsBlank(s) {
      forall k | 0 <= k < |a| ensures IsSpace(a[k]) { assert s[k] == a[k]; }
      forall k | 0 <= k < |b| ensures IsSpace(b[k]) { assert s[|a| + 1 + k] == b[k]; }
    }
  }

  /** Nothing is submitted-worthy exactly when both the base and the final buffer are blank. */
  lemma SubmitEmptyIffBlank(base: string, final: string)
    ensures SubmitText(base, final) == [] <==> IsBlank(base) && IsBlank(final)
  {
    PairJoin(base, final);
    SquishEmptyIffBlank(Join(NonEmpty([base, final]), " "));
    JoinSpaceBlank(base, final);
  }

  /** With no final words the submitted text is the squished base, and vice versa. */
  lemma SubmitOneSide(base: string, final: string)
    ensures final == [] ==> SubmitText(base, final) == Squish(base)
    ensures base == [] ==> SubmitText(base, final) == Squish(final)
  {
    PairJoin(base, final);
  }
}
