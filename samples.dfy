/**
 * Aligned label series: the `(y_true, y_pred, protected_attr)` triples the
 * multi-class fairness metrics take. Three pandas Series sharing one index
 * become one sequence of samples, so alignment holds by construction.
 */
module Samples {

  import opened Counting
  import opened Frames
  import Stats

  datatype Sample = Sample(truth: Cell, pred: Cell, attr: Cell)

  /** The samples of three series of one length. */
  function Zip(truths: seq<Cell>, preds: seq<Cell>, attrs: seq<Cell>): (r: seq<Sample>)
    requires |truths| == |preds| == |attrs|
    ensures |r| == |truths|
    ensures forall i :: 0 <= i < |r| ==> r[i] == Sample(truths[i], preds[i], attrs[i])
  {
    seq(|truths|, i requires 0 <= i < |truths| => Sample(truths[i], preds[i], attrs[i]))
  }

  function Truths(s: seq<Sample>): (r: seq<Cell>)
    ensures |r| == |s|
  {
    seq(|s|, i requires 0 <= i < |s| => s[i].truth)
  }

  function Preds(s: seq<Sample>): (r: seq<Cell>)
    ensures |r| == |s|
  {
    seq(|s|, i requires 0 <= i < |s| => s[i].pred)
  }

  function Attrs(s: seq<Sample>): (r: seq<Cell>)
    ensures |r| == |s|
  {
    seq(|s|, i requires 0 <= i < |s| => s[i].attr)
  }

  /** Zipping and projecting give the three series back. */
  lemma ZipProjections(truths: seq<Cell>, preds: seq<Cell>, attrs: seq<Cell>)
    requires |truths| == |preds| == |attrs|
    ensures Truths(Zip(truths, preds, attrs)) == truths
    ensures Preds(Zip(truths, preds, attrs)) == preds
    ensures Attrs(Zip(truths, preds, attrs)) == attrs
  {
  }

  /** `protected_attr.unique()`: the missing value counts as a group. */
  function Groups(s: seq<Sample>): seq<Cell>
  {
    Distinct(Attrs(s))
  }

  /** The samples selected by `protected_attr == g`; none for a missing `g`. */
  function Members(s: seq<Sample>, g: Cell): (r: seq<Sample>)
    ensures |r| <= |s|
    ensures forall x :: x in r <==> x in s && Eq(x.attr, g)
  {
    Filter(s, (x: Sample) => Eq(x.attr, g))
  }

  /** The number of samples satisfying `p`: a `(mask).sum()`. */
  function CountWhere(s: seq<Sample>, p: Sample -> bool): (r: nat)
    ensures r <= |s|
  {
    |Filter(s, p)|
  }

  /** `correct = (true == pred).sum()`: a missing label is never correct. */
  function Correct(s: seq<Sample>): (r: nat)
    ensures r <= |s|
  {
    CountWhere(s, (x: Sample) => Eq(x.truth, x.pred))
  }

  /** A present group value has members. */
  lemma PresentGroupHasMembers(s: seq<Sample>, g: Cell)
    requires g in Groups(s) && g != Null
    ensures Members(s, g) != []
  {
    var i :| 0 <= i < |s| && Attrs(s)[i] == g;
    assert s[i] in Members(s, g);
  }

  /** The missing group has no members. */
  lemma {:induction false} MissingGroupEmpty(s: seq<Sample>)
    ensures Members(s, Null) == []
  {
    if s != [] {
      MissingGroupEmpty(s[..|s| - 1]);
    }
  }

  /** Two distinct groups: at least one of them is present and has members. */
  lemma SomeGroupHasMembers(s: seq<Sample>)
    requires |Groups(s)| >= 2
    ensures exists i :: 0 <= i < |Groups(s)| && Members(s, Groups(s)[i]) != []
  {
    var gs := Groups(s);
    var i := if gs[0] != Null then 0 else 1;
    assert gs[i] != Null by {
      assert NoDuplicates(gs);
      if gs[0] == Null {
        assert gs[1] != gs[0];
      }
    }
    PresentGroupHasMembers(s, gs[i]);
  }

  /** A group with members is one of the groups. */
  lemma MembersListed(s: seq<Sample>, g: Cell)
    requires Members(s, g) != []
    ensures exists i :: 0 <= i < |Groups(s)| && Groups(s)[i] == g
  {
    var x := Members(s, g)[0];
    assert x in Members(s, g);
    var k :| 0 <= k < |s| && s[k] == x;
    assert Attrs(s)[k] == g;
    assert g in Groups(s);
  }
}
