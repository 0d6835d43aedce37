/** Outlier filtering over several parallel arrays. The outlier test
    `is_outlier` is a parameter: a function from an array to one boolean
    per observation (true for an outlier). Filtering with a mask keeps the
    elements whose mask entry is false, in order. */
module VisUtil {
  import opened Wrappers

  datatype FilterError =
    | InvalidMode          // `ValueError` for a mode other than all/first/last
    | NoArrays             // `points[0]` / `points[-1]` of an empty tuple
    | MaskLengthMismatch   // a boolean index whose length differs from the array's

  /** `point[~mask]` for a mask as long as the array: the elements from
      index `i` on whose mask entry is false, in order. */
  function KeepFrom<T>(point: seq<T>, mask: seq<bool>, i: nat): seq<T>
    requires |mask| == |point| && i <= |point|
    decreases |point| - i
  {
    if i == |point| then []
    else (if mask[i] then [] else [point[i]]) + KeepFrom(point, mask, i + 1)
  }

  function Keep<T>(point: seq<T>, mask: seq<bool>): seq<T>
    requires |mask| == |point|
  {
    KeepFrom(point, mask, 0)
  }

  /** The indices from `i` on whose mask entry is false, in order: an
      independent description of what `Keep` keeps. */
  function KeptFrom(mask: seq<bool>, i: nat): (r: seq<nat>)
    requires i <= |mask|
    ensures forall k :: 0 <= k < |r| ==> i <= r[k] < |mask|
    decreases |mask| - i
  {
    if i == |mask| then []
    else (if mask[i] then [] else [i]) + KeptFrom(mask, i + 1)
  }

  function KeptIndices(mask: seq<bool>): (r: seq<nat>)
    ensures forall k :: 0 <= k < |r| ==> r[k] < |mask|
  {
    KeptFrom(mask, 0)
  }

  /** The kept indices increase strictly. */
  lemma {:induction false} KeptFromSorted(mask: seq<bool>, i: nat)
    requires i <= |mask|
    ensures forall k, l :: 0 <= k < l < |KeptFrom(mask, i)| ==> KeptFrom(mask, i)[k] < KeptFrom(mask, i)[l]
    decreases |mask| - i
  {
    if i < |mask| {
      KeptFromSorted(mask, i + 1);
    }
  }

  /** An index is kept exactly when its mask entry is false. */
  lemma {:induction false} KeptFromMembers(mask: seq<bool>, i: nat)
    requires i <= |mask|
    ensures forall j :: i <= j < |mask| ==> (!mask[j] <==> j in KeptFrom(mask, i))
    decreases |mask| - i
  {
    if i < |mask| {
      KeptFromMembers(mask, i + 1);
      KeptFromSorted(mask, i + 1);
      assert i !in KeptFrom(mask, i + 1);
    }
  }

  /** `KeepFrom` lists the elements at the kept indices. */
  lemma {:induction false} KeepFromAt<T>(point: seq<T>, mask: seq<bool>, i: nat)
    requires |mask| == |point| && i <= |point|
    ensures |KeepFrom(point, mask, i)| == |KeptFrom(mask, i)|
    ensures forall k :: 0 <= k < |KeptFrom(mask, i)| ==>
      KeptFrom(mask, i)[k] < |point| && KeepFrom(point, mask, i)[k] == point[KeptFrom(mask, i)[k]]
    decreases |point| - i
  {
    if i < |point| {
      KeepFromAt(point, mask, i + 1);
      var rest := KeepFrom(point, mask, i + 1);
      var idx := KeptFrom(mask, i + 1);
      if !mask[i] {
        assert KeepFrom(point, mask, i) == [point[i]] + rest;
        assert KeptFrom(mask, i) == [i] + idx;
        forall k | 1 <= k < |KeptFrom(mask, i)|
          ensures KeepFrom(point, mask, i)[k] == point[KeptFrom(mask, i)[k]]
        {
          assert KeepFrom(point, mask, i)[k] == rest[k - 1];
          assert KeptFrom(mask, i)[k] == idx[k - 1];
        }
      } else {
        assert KeepFrom(point, mask, i) == rest;
        assert KeptFrom(mask, i) == idx;
      }
    }
  }

  /** Filtering keeps, in order, exactly the elements whose mask entry is
      false: the kept indices are those entries, in increasing order, and
      the k-th kept element is the element at the k-th kept index. */
  lemma KeepProperties<T>(point: seq<T>, mask: seq<bool>)
    requires |mask| == |point|
    ensures forall j :: 0 <= j < |mask| ==> (!mask[j] <==> j in KeptIndices(mask))
    ensures forall k, l :: 0 <= k < l < |KeptIndices(mask)| ==> KeptIndices(mask)[k] < KeptIndices(mask)[l]
    ensures |Keep(point, mask)| == |KeptIndices(mask)| == multiset(mask)[false] <= |point|
    ensures forall k :: 0 <= k < |KeptIndices(mask)| ==>
      KeptIndices(mask)[k] < |point| && Keep(point, mask)[k] == point[KeptIndices(mask)[k]]
  {
    KeptFromMembers(mask, 0);
    KeptFromSorted(mask, 0);
    KeepFromAt(point, mask, 0);
    KeptCount(mask, 0);
    assert mask[0..] == mask;
    assert multiset(mask)[false] + multiset(mask)[true] == |mask| by {
      MaskCount(mask);
    }
  }

  lemma {:induction false} MaskCount(mask: seq<bool>)
    ensures multiset(mask)[false] + multiset(mask)[true] == |mask|
  {
    if |mask| > 0 {
      MaskCount(mask[1..]);
      assert mask == [mask[0]] + mask[1..];
      var rest := multiset(mask[1..]);
      assert multiset(mask) == multiset{mask[0]} + rest;
      if mask[0] {
        assert multiset(mask)[true] == rest[true] + 1 && multiset(mask)[false] == rest[false];
      } else {
        assert multiset(mask)[false] == rest[false] + 1 && multiset(mask)[true] == rest[true];
      }
    }
  }

  /** There are as many kept indices as false entries. */
  lemma {:induction false} KeptCount(mask: seq<bool>, i: nat)
    requires i <= |mask|
    ensures |KeptFrom(mask, i)| == multiset(mask[i..])[false]
    decreases |mask| - i
  {
    if i < |mask| {
      KeptCount(mask, i + 1);
      assert mask[i..] == [mask[i]] + mask[i + 1..];
    }
  }

  /** Every element is kept under an all-false mask. */
  lemma {:induction false} KeepNothingMasked<T>(point: seq<T>, mask: seq<bool>, i: nat)
    requires |mask| == |point| && i <= |point| && forall j :: 0 <= j < |mask| ==> !mask[j]
    ensures KeepFrom(point, mask, i) == point[i..]
    decreases |point| - i
  {
    if i < |point| {
      KeepNothingMasked(point, mask, i + 1);
      assert point[i..] == [point[i]] + point[i + 1..];
    }
  }

  /** `point[~mask]`, which raises when the lengths differ. */
  function ApplyMask<T>(point: seq<T>, mask: seq<bool>): Result<seq<T>, FilterError>
  {
    if |mask| != |point| then Err(MaskLengthMismatch) else Ok(Keep(point, mask))
  }

  /** `(point[~mask] for point in points)`: one mask for every array. */
  function ApplyToAll<T>(points: seq<seq<T>>, mask: seq<bool>): (r: Result<seq<seq<T>>, FilterError>)
    ensures r.Ok? <==> forall i :: 0 <= i < |points| ==> |points[i]| == |mask|
    ensures r.Ok? ==> (|r.value| == |points| &&
      forall i :: 0 <= i < |points| ==> r.value[i] == Keep(points[i], mask))
    ensures r.Err? ==> r.error == MaskLengthMismatch
  {
    if |points| == 0 then Ok([])
    else match ApplyMask(points[0], mask)
      case Err(e) => Err(e)
      case Ok(p) =>
        match ApplyToAll(points[1..], mask)
        case Err(e) => Err(e)
        case Ok(ps) =>
          assert forall i :: 1 <= i < |points| ==> points[i] == points[1..][i - 1];
          Ok([p] + ps)
  }

  /** `_filter_outliers(point)`: the array without its own outliers. */
  function FilterOwn<T>(point: seq<T>, isOutlier: seq<T> -> seq<bool>): seq<T>
    requires |isOutlier(point)| == |point|
  {
    Keep(point, isOutlier(point))
  }

  /** The outlier test gives one boolean per observation of each array. */
  predicate MasksFit<T>(points: seq<seq<T>>, isOutlier: seq<T> -> seq<bool>)
  {
    forall i :: 0 <= i < |points| ==> |isOutlier(points[i])| == |points[i]|
  }

  /** `filter_outliers(*points, mode=mode)`. */
  function FilterOutliers<T>(points: seq<seq<T>>, isOutlier: seq<T> -> seq<bool>, mode: string): (r: Result<seq<seq<T>>, FilterError>)
    requires MasksFit(points, isOutlier)
    ensures r.Ok? ==> |r.value| == |points|
    ensures r == Err(InvalidMode) <==> mode != "all" && mode != "first" && mode != "last"
    ensures r == Err(NoArrays) <==> (mode == "first" || mode == "last") && points == []
  {
    if mode == "all" then
      Ok(seq(|points|, i requires 0 <= i < |points| => FilterOwn(points[i], isOutlier)))
    else if mode == "first" then
      if |points| == 0 then Err(NoArrays) else ApplyToAll(points, isOutlier(points[0]))
    else if mode == "last" then
      if |points| == 0 then Err(NoArrays) else ApplyToAll(points, isOutlier(points[|points| - 1]))
    else Err(InvalidMode)
  }

  /** In mode `all` each array loses exactly its own outliers: what is
      left of it is its elements at the indices its own mask marks false,
      in order. */
  lemma FilterAllOwnMask<T>(points: seq<seq<T>>, isOutlier: seq<T> -> seq<bool>)
    requires MasksFit(points, isOutlier)
    ensures var r := FilterOutliers(points, isOutlier, "all");
      r.Ok? && |r.value| == |points| &&
      forall i :: 0 <= i < |points| ==>
        |r.value[i]| == |KeptIndices(isOutlier(points[i]))| &&
        forall k :: 0 <= k < |KeptIndices(isOutlier(points[i]))| ==>
          r.value[i][k] == points[i][KeptIndices(isOutlier(points[i]))[k]]
  {
    forall i | 0 <= i < |points|
      ensures KeepAligned(points[i], isOutlier(points[i]))
    {
      KeepProperties(points[i], isOutlier(points[i]));
    }
  }

  /** `Keep(point, mask)` is the elements of `point` at `KeptIndices(mask)`. */
  ghost predicate KeepAligned<T>(point: seq<T>, mask: seq<bool>)
    requires |mask| == |point|
  {
    |Keep(point, mask)| == |KeptIndices(mask)| &&
    forall k :: 0 <= k < |KeptIndices(mask)| ==> Keep(point, mask)[k] == point[KeptIndices(mask)[k]]
  }

  /** In mode `first` the mask of the first array is applied to every
      array: equal-length inputs come out equal-length, and the k-th
      survivor of every array comes from the same index, one the first
      array's mask marks false. */
  lemma FilterFirstMask<T>(points: seq<seq<T>>, isOutlier: seq<T> -> seq<bool>)
    requires MasksFit(points, isOutlier)
    requires |points| > 0 && forall i :: 0 <= i < |points| ==> |points[i]| == |points[0]|
    ensures var r := FilterOutliers(points, isOutlier, "first");
      var kept := KeptIndices(isOutlier(points[0]));
      r.Ok? && |r.value| == |points| &&
      forall i :: 0 <= i < |points| ==>
        |r.value[i]| == |kept| &&
        forall k :: 0 <= k < |kept| ==> kept[k] < |points[i]| && r.value[i][k] == points[i][kept[k]]
  {
    SharedMaskAligned(points, isOutlier(points[0]));
  }

  /** In mode `last` the mask of the last array is applied to every array,
      with the same alignment as in mode `first`. */
  lemma FilterLastMask<T>(points: seq<seq<T>>, isOutlier: seq<T> -> seq<bool>)
    requires MasksFit(points, isOutlier)
    requires |points| > 0 && forall i :: 0 <= i < |points| ==> |points[i]| == |points[|points| - 1]|
    ensures var r := FilterOutliers(points, isOutlier, "last");
      var kept := KeptIndices(isOutlier(points[|points| - 1]));
      r.Ok? && |r.value| == |points| &&
      forall i :: 0 <= i < |points| ==>
        |r.value[i]| == |kept| &&
        forall k :: 0 <= k < |kept| ==> kept[k] < |points[i]| && r.value[i][k] == points[i][kept[k]]
  {
    SharedMaskAligned(points, isOutlier(points[|points| - 1]));
  }

  lemma SharedMaskAligned<T>(points: seq<seq<T>>, mask: seq<bool>)
    requires forall i :: 0 <= i < |points| ==> |points[i]| == |mask|
    ensures forall i :: 0 <= i < |points| ==> KeepAligned(points[i], mask)
  {
    forall i | 0 <= i < |points|
      ensures KeepAligned(points[i], mask)
    {
      KeepProperties(points[i], mask);
    }
  }

  /** With `first` or `last`, arrays of another length than the masked one
      make the boolean index fail. */
  lemma FilterSharedMaskMismatch<T>(points: seq<seq<T>>, isOutlier: seq<T> -> seq<bool>, j: nat)
    requires MasksFit(points, isOutlier)
    requires j < |points| && |points[j]| != |points[0]|
    ensures FilterOutliers(points, isOutlier, "first") == Err(MaskLengthMismatch)
    ensures FilterOutliers(points, isOutlier, "last").Err?
  {
    var last := |points| - 1;
    if |points[j]| == |points[last]| {
      assert |points[0]| != |points[last]|;
    }
  }
}
