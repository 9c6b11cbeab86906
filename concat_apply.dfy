/** Flattening groups of records with `Array.prototype.concat` called
    through `Function.prototype.apply`. `[].concat.apply([], groups)` passes
    every group as an argument of `concat`, so each one is spread into the
    result. `[].concat.apply(...groups)` spreads `groups` into the arguments
    of `apply` itself: the first group becomes the receiver of `concat`, the
    second its argument list, and any later group is never looked at. */
module ConcatApply {
  import opened Wrappers

  /** An argument of `concat`: an array is spread into the result, any other
      value (a plain record) is appended as one element. */
  datatype ConcatArg<T> = Spread(items: seq<T>) | Single(item: T)

  function ArgsContents<T>(args: seq<ConcatArg<T>>): seq<T> {
    if args == [] then []
    else
      (match args[0]
       case Spread(items) => items
       case Single(item) => [item])
      + ArgsContents(args[1..])
  }

  /** `receiver.concat(...args)` for an array receiver. */
  function Concat<T>(receiver: seq<T>, args: seq<ConcatArg<T>>): seq<T> {
    receiver + ArgsContents(args)
  }

  /** Each group as an argument that `concat` spreads. */
  function SpreadEach<T>(groups: seq<seq<T>>): (args: seq<ConcatArg<T>>)
    ensures |args| == |groups|
    ensures forall i :: 0 <= i < |groups| ==> args[i] == Spread(groups[i])
  {
    if groups == [] then [] else [Spread(groups[0])] + SpreadEach(groups[1..])
  }

  /** Each record as an argument of its own. */
  function SingleEach<T>(items: seq<T>): (args: seq<ConcatArg<T>>)
    ensures |args| == |items|
    ensures forall i :: 0 <= i < |items| ==> args[i] == Single(items[i])
  {
    if items == [] then [] else [Single(items[0])] + SingleEach(items[1..])
  }

  /** `[].concat.apply([], groups)`. */
  function Flatten<T>(groups: seq<seq<T>>): seq<T> {
    Concat([], SpreadEach(groups))
  }

  /** `[].concat.apply(...groups)`: with no group `concat` runs on
      `undefined` and throws a TypeError; otherwise the first group is the
      receiver and the elements of the second, if there is one, are the
      arguments. */
  function ConcatApplySpread<T>(groups: seq<seq<T>>): (r: Completion<seq<T>>)
    ensures r.Thrown? <==> |groups| == 0
  {
    if |groups| == 0 then Thrown
    else if |groups| == 1 then Normal(Concat(groups[0], []))
    else Normal(Concat(groups[0], SingleEach(groups[1])))
  }

  /** The in-order concatenation of all groups. */
  function Concatenation<T>(groups: seq<seq<T>>): seq<T> {
    if groups == [] then [] else groups[0] + Concatenation(groups[1..])
  }

  lemma {:induction false} ArgsContentsOfSpreads<T>(groups: seq<seq<T>>)
    ensures ArgsContents(SpreadEach(groups)) == Concatenation(groups)
  {
    if groups != [] {
      var args := SpreadEach(groups);
      assert args == [Spread(groups[0])] + SpreadEach(groups[1..]);
      assert args[1..] == SpreadEach(groups[1..]);
      assert ArgsContents(args) == groups[0] + ArgsContents(args[1..]);
      ArgsContentsOfSpreads(groups[1..]);
    }
  }

  lemma {:induction false} ArgsContentsOfSingles<T>(items: seq<T>)
    ensures ArgsContents(SingleEach(items)) == items
  {
    if items != [] {
      var args := SingleEach(items);
      assert args == [Single(items[0])] + SingleEach(items[1..]);
      assert args[1..] == SingleEach(items[1..]);
      assert ArgsContents(args) == [items[0]] + ArgsContents(args[1..]);
      ArgsContentsOfSingles(items[1..]);
      assert items == [items[0]] + items[1..];
    }
  }

  /** `[].concat.apply([], groups)` is the concatenation of every group, in order. */
  lemma FlattenIsConcatenation<T>(groups: seq<seq<T>>)
    ensures Flatten(groups) == Concatenation(groups)
  {
    ArgsContentsOfSpreads(groups);
  }

  lemma {:induction false} ConcatenationAppend<T>(a: seq<seq<T>>, b: seq<seq<T>>)
    ensures Concatenation(a + b) == Concatenation(a) + Concatenation(b)
  {
    if a == [] {
      assert a + b == b;
    } else {
      assert (a + b)[1..] == a[1..] + b;
      ConcatenationAppend(a[1..], b);
    }
  }

  /** The flattened list holds exactly the records of the groups: its length
      is the sum of theirs and each group appears unchanged at its place. */
  lemma {:induction false} ConcatenationPlaces<T>(groups: seq<seq<T>>, i: nat)
    requires i < |groups|
    ensures var before := Concatenation(groups[..i]);
      |before| + |groups[i]| <= |Concatenation(groups)|
      && Concatenation(groups)[|before|..|before| + |groups[i]|] == groups[i]
  {
    assert groups == groups[..i] + groups[i..];
    ConcatenationAppend(groups[..i], groups[i..]);
    assert Concatenation(groups[i..]) == groups[i] + Concatenation(groups[i + 1..]) by {
      assert groups[i..][1..] == groups[i + 1..];
    }
  }

  /** What `[].concat.apply(...groups)` gives: it throws with no group, copies
      a single group, and joins only the first two otherwise. */
  lemma ConcatApplySpreadCases<T>(groups: seq<seq<T>>)
    ensures |groups| == 0 ==> ConcatApplySpread(groups) == Thrown
    ensures |groups| == 1 ==> ConcatApplySpread(groups) == Normal(groups[0])
    ensures |groups| >= 2 ==> ConcatApplySpread(groups) == Normal(groups[0] + groups[1])
  {
    if |groups| == 1 {
      var none: seq<ConcatArg<T>> := [];
      assert ArgsContents(none) == [];
      assert Concat(groups[0], none) == groups[0];
    } else if |groups| >= 2 {
      ArgsContentsOfSingles(groups[1]);
    }
  }

  /** `[].concat.apply(...groups)` agrees with the full flattening exactly when
      there is at least one group and the groups after the second are all empty. */
  lemma ConcatApplySpreadAgreement<T>(groups: seq<seq<T>>)
    ensures ConcatApplySpread(groups) == Normal(Flatten(groups))
      <==> |groups| > 0 && (|groups| <= 2 || Concatenation(groups[2..]) == [])
  {
    ConcatApplySpreadCases(groups);
    FlattenIsConcatenation(groups);
    if |groups| == 1 {
      assert Concatenation(groups) == groups[0] + Concatenation(groups[1..]);
    } else if |groups| >= 2 {
      assert Concatenation(groups) == groups[0] + (groups[1] + Concatenation(groups[2..])) by {
        assert groups[1..][1..] == groups[2..];
      }
      var joined, rest := groups[0] + groups[1], Concatenation(groups[2..]);
      assert groups[0] + (groups[1] + rest) == joined + rest;
      if joined == joined + rest {
        assert |rest| == 0;
      }
    }
  }

  /** Three non-empty groups: the third one is lost. */
  lemma ConcatApplySpreadDropsThirdGroup<T>(a: T, b: T, c: T)
    ensures ConcatApplySpread([[a], [b], [c]]) == Normal([a, b])
    ensures Flatten([[a], [b], [c]]) == [a, b, c]
  {
    var groups := [[a], [b], [c]];
    ConcatApplySpreadCases(groups);
    FlattenIsConcatenation(groups);
    assert groups[1..] == [[b], [c]];
    assert groups[0] + groups[1] == [a, b];
    assert [[b], [c]][1..] == [[c]];
    assert Concatenation([[c]]) == [c] by {
      assert [[c]][1..] == [];
    }
    assert Concatenation([[b], [c]]) == [b, c];
  }
}
