/** The formula viewer: the input lines are shown `num_display` at a time;
    the keys `d` and `a` move to the next and the previous batch, wrapping
    around, `q` quits, and a batch is rendered only the first time it is
    shown. Keys come from a finite sequence; rendering and display are tool
    calls, and the model records what would be rendered. */
module TexViz {
  import opened Seqs
  import opened PyStr
  import opened PyPath

  /** `ord("d")`, `ord("a")` and `ord("q")`. */
  const KeyNext: int := 100
  const KeyPrev: int := 97
  const KeyQuit: int := 113

  /** `math.ceil(len(data) / num_display)`. */
  function NumBatches(n: nat, numDisplay: nat): nat
    requires numDisplay >= 1
  {
    CeilDiv(n, numDisplay)
  }

  /** The batch count is the least count whose batches hold every line;
      it is zero exactly for an empty input. */
  lemma NumBatchesCount(n: nat, numDisplay: nat)
    requires numDisplay >= 1
    ensures (NumBatches(n, numDisplay) - 1) * numDisplay < n <= NumBatches(n, numDisplay) * numDisplay
    ensures NumBatches(n, numDisplay) == 0 <==> n == 0
  {
    CeilDivBounds(n, numDisplay);
    if NumBatches(n, numDisplay) > 0 {
      MulMonotone(numDisplay, 1, NumBatches(n, numDisplay));
    }
  }

  /** `data[start:end]` with `start = b * num_display` and
      `end = min((b + 1) * num_display, len(data))`, sliced as Python does. */
  function BatchLines(data: seq<string>, numDisplay: nat, b: nat): seq<string>
  {
    var start := b * numDisplay;
    var end := Min((b + 1) * numDisplay, |data|);
    if start < end then data[start..end] else []
  }

  /** Every batch below the count has bounds start < end <= len(data),
      and all but the last hold `num_display` lines. */
  lemma BatchBounds(n: nat, numDisplay: nat, b: nat)
    requires numDisplay >= 1 && b < NumBatches(n, numDisplay)
    ensures b * numDisplay < Min((b + 1) * numDisplay, n) <= n
    ensures b + 1 < NumBatches(n, numDisplay) ==> Min((b + 1) * numDisplay, n) - b * numDisplay == numDisplay
  {
    var c := NumBatches(n, numDisplay);
    NumBatchesCount(n, numDisplay);
    MulMonotone(numDisplay, b, c - 1);
    assert (b + 1) * numDisplay == b * numDisplay + numDisplay;
    if b + 1 < c {
      MulMonotone(numDisplay, b + 1, c - 1);
    }
  }

  /** `os.path.join(tmp_dir, "viz_{}.png".format(batch_index))`. */
  function ImagePath(tmpDir: string, b: nat): string
  {
    Join(tmpDir, "viz_" + NatToString(b) + ".png")
  }

  datatype StepResult = Move(next: nat) | Stop | DivZero

  /** One key press. Dafny's `%` with a positive divisor is Python's: the
      result is never negative, so `a` on batch 0 wraps to the last batch.
      With no batches, `d` and `a` divide by zero. */
  function Step(idx: nat, key: int, nb: nat): (r: StepResult)
    ensures r == Stop <==> key == KeyQuit
    ensures r == DivZero <==> nb == 0 && (key == KeyNext || key == KeyPrev)
    ensures nb > 0 && idx < nb && r.Move? ==> r.next < nb
    ensures key != KeyNext && key != KeyPrev && key != KeyQuit ==> r == Move(idx)
  {
    if key == KeyNext then
      if nb == 0 then DivZero else Move((idx + 1) % nb)
    else if key == KeyPrev then
      if nb == 0 then DivZero else Move((idx - 1) % nb)
    else if key == KeyQuit then Stop
    else Move(idx)
  }

  /** The batches shown, in order, starting from `idx`, one per pass of
      the loop. */
  function Visits(keys: seq<int>, idx: nat, nb: nat): seq<nat>
    decreases |keys|
  {
    [idx] + if |keys| == 0 then [] else
      match Step(idx, keys[0], nb)
      case Move(j) => Visits(keys[1..], j, nb)
      case _ => []
  }

  /** How the loop ends: `q` on some batch, a division by zero, or (in the
      model only) no keys left while on some batch. */
  datatype Ending = QuitAt(index: nat) | ZeroDivision | KeysExhausted(index: nat)

  function Outcome(keys: seq<int>, idx: nat, nb: nat): Ending
    decreases |keys|
  {
    if |keys| == 0 then KeysExhausted(idx)
    else match Step(idx, keys[0], nb)
      case Move(j) => Outcome(keys[1..], j, nb)
      case Stop => QuitAt(idx)
      case DivZero => ZeroDivision
  }

  /** One call of `tex_to_img`: a batch, its lines and its image path. */
  datatype Render = Render(batch: nat, lines: seq<string>, imgPath: string)

  function RenderOf(data: seq<string>, numDisplay: nat, tmpDir: string, b: nat): Render
  {
    Render(b, BatchLines(data, numDisplay, b), ImagePath(tmpDir, b))
  }

  function Renders(data: seq<string>, numDisplay: nat, tmpDir: string, bs: seq<nat>): seq<Render>
  {
    seq(|bs|, i requires 0 <= i < |bs| => RenderOf(data, numDisplay, tmpDir, bs[i]))
  }

  /** The batches shown after the one on which `keys` start. */
  function LaterVisits(keys: seq<int>, idx: nat, nb: nat): seq<nat>
  {
    if |keys| == 0 then [] else
      match Step(idx, keys[0], nb)
      case Move(j) => Visits(keys[1..], j, nb)
      case _ => []
  }

  lemma VisitsUnfold(keys: seq<int>, k: nat, idx: nat, nb: nat)
    requires k <= |keys|
    ensures Visits(keys[k..], idx, nb) == [idx] + LaterVisits(keys[k..], idx, nb)
    ensures ([idx] + LaterVisits(keys[k..], idx, nb))[1..] == LaterVisits(keys[k..], idx, nb)
    ensures k < |keys| ==> keys[k..][0] == keys[k] && keys[k..][1..] == keys[k + 1..]
  {
  }

  /** What one key press does to the rest of the run. */
  lemma KeyStep(keys: seq<int>, k: nat, idx: nat, nb: nat)
    requires k <= |keys|
    ensures k == |keys| ==> LaterVisits(keys[k..], idx, nb) == [] && Outcome(keys[k..], idx, nb) == KeysExhausted(idx)
    ensures k < |keys| && Step(idx, keys[k], nb).Move? ==>
      LaterVisits(keys[k..], idx, nb) == Visits(keys[k + 1..], Step(idx, keys[k], nb).next, nb) &&
      Outcome(keys[k..], idx, nb) == Outcome(keys[k + 1..], Step(idx, keys[k], nb).next, nb)
    ensures k < |keys| && Step(idx, keys[k], nb) == Stop ==>
      LaterVisits(keys[k..], idx, nb) == [] && Outcome(keys[k..], idx, nb) == QuitAt(idx)
    ensures k < |keys| && Step(idx, keys[k], nb) == DivZero ==>
      LaterVisits(keys[k..], idx, nb) == [] && Outcome(keys[k..], idx, nb) == ZeroDivision
  {
    if k < |keys| {
      assert keys[k..][0] == keys[k] && keys[k..][1..] == keys[k + 1..];
    }
  }

  lemma RendersAppend(data: seq<string>, numDisplay: nat, tmpDir: string, bs: seq<nat>, b: nat)
    ensures Renders(data, numDisplay, tmpDir, bs + [b]) ==
      Renders(data, numDisplay, tmpDir, bs) + [RenderOf(data, numDisplay, tmpDir, b)]
  {
    assert forall i :: 0 <= i < |bs| ==> (bs + [b])[i] == bs[i];
  }

  /** The lines of the current batch, as the loop slices them. */
  lemma BatchSlice(data: seq<string>, numDisplay: nat, nb: nat, idx: nat, start: nat, end: nat)
    requires numDisplay >= 1 && nb == NumBatches(|data|, numDisplay)
    requires if nb == 0 then idx == 0 else idx < nb
    requires start == idx * numDisplay && end == Min((idx + 1) * numDisplay, |data|)
    ensures start <= end <= |data|
    ensures data[start..end] == BatchLines(data, numDisplay, idx)
  {
    NumBatchesCount(|data|, numDisplay);
    if nb > 0 {
      BatchBounds(|data|, numDisplay, idx);
    }
  }

  lemma RendersDistinct(data: seq<string>, numDisplay: nat, tmpDir: string, bs: seq<nat>)
    requires Distinct(bs)
    ensures var rs := Renders(data, numDisplay, tmpDir, bs);
      forall i, j :: 0 <= i < j < |rs| ==> rs[i].batch != rs[j].batch
  {
  }

  /** The first step of `Extend`. */
  lemma ExtendStep(processed: seq<nat>, idx: nat, rest: seq<nat>)
    ensures Extend(processed, [idx] + rest) == Extend(if idx in processed then processed else processed + [idx], rest)
  {
    assert ([idx] + rest)[0] == idx && ([idx] + rest)[1..] == rest;
  }

  /** Lines 32-36 of `main`: a batch not yet in `processed` is rendered
      and recorded. */
  method RenderIfNew(data: seq<string>, numDisplay: nat, tmpDir: string, nb: nat, idx: nat,
                     processed: seq<nat>, renders: seq<Render>)
    returns (processed': seq<nat>, renders': seq<Render>)
    requires numDisplay >= 1 && nb == NumBatches(|data|, numDisplay)
    requires if nb == 0 then idx == 0 else idx < nb
    requires renders == Renders(data, numDisplay, tmpDir, processed)
    ensures processed' == if idx in processed then processed else processed + [idx]
    ensures Distinct(processed) ==> Distinct(processed')
    ensures renders' == Renders(data, numDisplay, tmpDir, processed')
  {
    processed', renders' := processed, renders;
    var imgPath := ImagePath(tmpDir, idx);
    if idx !in processed {
      var start := idx * numDisplay;
      var end := Min((idx + 1) * numDisplay, |data|);
      BatchSlice(data, numDisplay, nb, idx, start, end);
      var lines := data[start..end];
      RendersAppend(data, numDisplay, tmpDir, processed, idx);
      renders' := renders + [Render(idx, lines, imgPath)];
      processed' := processed + [idx];
    }
  }

  /** The `while True` loop of `main`. Each pass renders the current batch
      unless `processed` holds it, then reads a key. So the batches rendered
      are the batches shown, each at its first showing. */
  method View(data: seq<string>, numDisplay: nat, keys: seq<int>, tmpDir: string)
    returns (renders: seq<Render>, ending: Ending)
    ensures numDisplay == 0 ==> renders == [] && ending == ZeroDivision
    ensures numDisplay >= 1 ==>
      renders == Renders(data, numDisplay, tmpDir, Dedup(Visits(keys, 0, NumBatches(|data|, numDisplay)))) &&
      ending == Outcome(keys, 0, NumBatches(|data|, numDisplay))
    ensures forall i, j :: 0 <= i < j < |renders| ==> renders[i].batch != renders[j].batch
  {
    renders := [];
    if numDisplay == 0 {
      // `len(data) / num_display` raises before the loop starts.
      return [], ZeroDivision;
    }
    var n := |data|;
    var nb := CeilDiv(n, numDisplay);
    NumBatchesCount(n, numDisplay);
    var idx: nat := 0;
    var processed: seq<nat> := [];
    var k := 0;
    ghost var goal := Dedup(Visits(keys, 0, nb));
    ExtendProperties([], Visits(keys, 0, nb));
    while true
      invariant 0 <= k <= |keys|
      invariant if nb == 0 then idx == 0 else idx < nb
      invariant Distinct(processed)
      invariant Extend(processed, Visits(keys[k..], idx, nb)) == goal
      invariant Outcome(keys[k..], idx, nb) == Outcome(keys, 0, nb)
      invariant renders == Renders(data, numDisplay, tmpDir, processed)
      decreases |keys| - k
    {
      ghost var rest := LaterVisits(keys[k..], idx, nb);
      VisitsUnfold(keys, k, idx, nb);
      KeyStep(keys, k, idx, nb);
      ExtendStep(processed, idx, rest);
      processed, renders := RenderIfNew(data, numDisplay, tmpDir, nb, idx, processed, renders);
      assert Extend(processed, rest) == goal;
      if k == |keys| {
        ending := KeysExhausted(idx);
        break;
      }
      var key := keys[k];
      KeyStep(keys, k, idx, nb);
      ghost var step := Step(idx, key, nb);
      k := k + 1;
      if key == KeyNext {
        if nb == 0 {
          ending := ZeroDivision;
          break;
        }
        idx := (idx + 1) % nb;
        assert step == Move(idx);
      } else if key == KeyPrev {
        if nb == 0 {
          ending := ZeroDivision;
          break;
        }
        idx := (idx - 1) % nb;
        assert step == Move(idx);
      } else if key == KeyQuit {
        ending := QuitAt(idx);
        break;
      } else {
        assert step == Move(idx);
      }
    }
    assert Extend(processed, []) == processed;
    RendersDistinct(data, numDisplay, tmpDir, processed);
  }

  /** Every batch shown exists (or is batch 0 of an empty input). */
  lemma {:induction false} VisitsInRange(keys: seq<int>, idx: nat, nb: nat)
    requires if nb == 0 then idx == 0 else idx < nb
    ensures forall b :: b in Visits(keys, idx, nb) ==> if nb == 0 then b == 0 else b < nb
    decreases |keys|
  {
    if |keys| > 0 {
      match Step(idx, keys[0], nb)
      case Move(j) => VisitsInRange(keys[1..], j, nb);
      case _ =>
    }
  }

  /** `x % nb` is the one r in [0, nb) with x = q * nb + r. */
  lemma ModUnique(x: int, nb: int, q: int, r: int)
    requires 0 <= r < nb && x == q * nb + r
    ensures x % nb == r
  {
    var q' := x / nb;
    var r' := x % nb;
    assert x == q' * nb + r';
    assert nb * (q - q') == r' - r;
    assert nb * (q' - q) == r - r';
    MulMonotone(nb, 1, q - q');
    MulMonotone(nb, 1, q' - q);
  }

  lemma ModSucc(x: int, nb: int)
    requires nb > 0
    ensures ((x % nb) + 1) % nb == (x + 1) % nb
  {
    var q := x / nb;
    var r := x % nb;
    assert x == q * nb + r;
    if r + 1 < nb {
      ModUnique(r + 1, nb, 0, r + 1);
      ModUnique(x + 1, nb, q, r + 1);
    } else {
      ModUnique(r + 1, nb, 1, 0);
      assert x + 1 == (q + 1) * nb + 0;
      ModUnique(x + 1, nb, q + 1, 0);
    }
  }

  /** `d` then `a` comes back to the same batch. */
  lemma NextThenPrev(idx: nat, nb: nat)
    requires idx < nb
    ensures Step(Step(idx, KeyNext, nb).next, KeyPrev, nb) == Move(idx)
  {
    if idx + 1 < nb {
      ModUnique(idx + 1, nb, 0, idx + 1);
      ModUnique(idx, nb, 0, idx);
    } else {
      ModUnique(idx + 1, nb, 1, 0);
      ModUnique(-1, nb, -1, nb - 1);
    }
  }

  /** `a` then `d` comes back to the same batch. */
  lemma PrevThenNext(idx: nat, nb: nat)
    requires idx < nb
    ensures Step(Step(idx, KeyPrev, nb).next, KeyNext, nb) == Move(idx)
  {
    if idx > 0 {
      ModUnique(idx - 1, nb, 0, idx - 1);
      ModUnique(idx, nb, 0, idx);
    } else {
      ModUnique(-1, nb, -1, nb - 1);
      ModUnique(nb, nb, 1, 0);
    }
  }

  /** Running keys one after another: the loop goes on from where the
      first keys left it, unless they ended it. */
  lemma {:induction false} OutcomeAppend(keys: seq<int>, key: int, idx: nat, nb: nat)
    ensures Outcome(keys + [key], idx, nb) ==
      match Outcome(keys, idx, nb)
      case KeysExhausted(j) => Outcome([key], j, nb)
      case e => e
    decreases |keys|
  {
    if |keys| == 0 {
      assert keys + [key] == [key];
    } else {
      assert (keys + [key])[0] == keys[0];
      assert (keys + [key])[1..] == keys[1..] + [key];
      match Step(idx, keys[0], nb)
      case Move(j) => OutcomeAppend(keys[1..], key, j, nb);
      case _ =>
    }
  }

  function Repeat(key: int, m: nat): (r: seq<int>)
    ensures |r| == m && forall i :: 0 <= i < m ==> r[i] == key
  {
    seq(m, _ => key)
  }

  /** m presses of `d` move m batches forward, wrapping around. */
  lemma {:induction false} NextPresses(idx: nat, m: nat, nb: nat)
    requires idx < nb
    ensures Outcome(Repeat(KeyNext, m), idx, nb) == KeysExhausted((idx + m) % nb)
    decreases m
  {
    if m == 0 {
      ModUnique(idx, nb, 0, idx);
    } else {
      NextPresses(idx, m - 1, nb);
      assert Repeat(KeyNext, m) == Repeat(KeyNext, m - 1) + [KeyNext];
      OutcomeAppend(Repeat(KeyNext, m - 1), KeyNext, idx, nb);
      var j := (idx + m - 1) % nb;
      assert [KeyNext][1..] == [];
      assert Outcome([KeyNext], j, nb) == KeysExhausted((j + 1) % nb);
      ModSucc(idx + m - 1, nb);
    }
  }

  /** `num_batches` presses of `d` come back to the starting batch. */
  lemma FullCycle(idx: nat, nb: nat)
    requires idx < nb
    ensures Outcome(Repeat(KeyNext, nb), idx, nb) == KeysExhausted(idx)
  {
    NextPresses(idx, nb, nb);
    ModUnique(idx + nb, nb, 1, idx);
  }

  /** With an empty input there are no batches: the empty batch 0 is
      shown, and `d` or `a` then divides by zero. */
  lemma EmptyInput(keys: seq<int>, numDisplay: nat)
    requires numDisplay >= 1 && |keys| > 0 && (keys[0] == KeyNext || keys[0] == KeyPrev)
    ensures NumBatches(0, numDisplay) == 0
    ensures Outcome(keys, 0, NumBatches(0, numDisplay)) == ZeroDivision
    ensures Visits(keys, 0, NumBatches(0, numDisplay)) == [0]
  {
    NumBatchesCount(0, numDisplay);
  }
}
