/** Zone assignment (`_assign_text_to_boxes`): each token goes to the first box,
    in list order, whose rectangle contains the token's centre, boundary included;
    tokens no box captures go to the `_UNBOXED_` bucket. */
module Zones {
  import opened Seqs
  import opened Geometry
  import opened Templates

  const UnboxedKey: string := "_UNBOXED_"

  /** The box has a `coordinates` list of exactly four numbers; other boxes receive nothing. */
  predicate HasRect(b: Box) {
    b.coordinates.Some? && |b.coordinates.value| == 4
  }

  function BoxRect(b: Box): Rect
    requires HasRect(b)
  {
    var c := b.coordinates.value;
    Rect(c[0], c[1], c[2], c[3])
  }

  predicate Captures(b: Box, t: Token) {
    HasRect(b) && ContainsPoint(BoxRect(b), t.CenterX(), t.CenterY(), 0.0)
  }

  /** The first box at or after index `from` that captures `t`. */
  function FirstBoxFrom(boxes: seq<Box>, t: Token, from: nat): (r: Option<nat>)
    requires from <= |boxes|
    ensures r.Some? ==> from <= r.value < |boxes| && Captures(boxes[r.value], t)
    ensures r.Some? ==> forall j :: from <= j < r.value ==> !Captures(boxes[j], t)
    ensures r.None? ==> forall j :: from <= j < |boxes| ==> !Captures(boxes[j], t)
    decreases |boxes| - from
  {
    if from == |boxes| then None
    else if Captures(boxes[from], t) then Some(from)
    else FirstBoxFrom(boxes, t, from + 1)
  }

  function FirstBox(boxes: seq<Box>, t: Token): Option<nat> {
    FirstBoxFrom(boxes, t, 0)
  }

  /** The label of the box that takes `t`, or `None` when no box does. */
  function BoxedLabel(boxes: seq<Box>, t: Token): Option<string> {
    match FirstBox(boxes, t)
    case Some(k) => Some(LabelOf(boxes[k]))
    case None => None
  }

  function Classifier(boxes: seq<Box>): Token -> Option<string> {
    t => BoxedLabel(boxes, t)
  }

  function Labels(boxes: seq<Box>): set<string> {
    set b | b in boxes :: LabelOf(b)
  }

  /** The dictionary `_assign_text_to_boxes` returns: one (possibly empty) list per
      box label, holding the tokens taken by a box of that label in input order, and
      the `_UNBOXED_` list when it is not empty (it replaces a box list of that name). */
  function Assignments(tokens: seq<Token>, boxes: seq<Box>): map<string, seq<Token>> {
    var boxed := map l | l in Labels(boxes) :: FilterEq(tokens, Classifier(boxes), Some(l));
    var unboxed := FilterEq(tokens, Classifier(boxes), None);
    if unboxed != [] then boxed[UnboxedKey := unboxed] else boxed
  }

  /** The inner loop of `_assign_text_to_boxes`: scan the boxes in order, skipping
      malformed ones, and stop at the first whose rectangle contains the centre. */
  method FindBox(boxes: seq<Box>, t: Token) returns (k: Option<nat>)
    ensures k == FirstBox(boxes, t)
  {
    var j := 0;
    while j < |boxes|
      invariant 0 <= j <= |boxes|
      invariant FirstBoxFrom(boxes, t, 0) == FirstBoxFrom(boxes, t, j)
    {
      var coords := boxes[j].coordinates;
      if coords.Some? && |coords.value| == 4 {
        var c := coords.value;
        if c[0] <= t.CenterX() <= c[2] && c[1] <= t.CenterY() <= c[3] {
          return Some(j);
        }
      }
      j := j + 1;
    }
    return None;
  }

  /** One empty list per box label. */
  method EmptyBuckets(boxes: seq<Box>) returns (buckets: map<string, seq<Token>>)
    ensures buckets.Keys == Labels(boxes)
    ensures forall l :: l in buckets ==> buckets[l] == []
  {
    buckets := map[];
    for i := 0 to |boxes|
      invariant buckets.Keys == Labels(boxes[..i])
      invariant forall l :: l in buckets ==> buckets[l] == []
    {
      assert boxes[..i + 1] == boxes[..i] + [boxes[i]];
      buckets := buckets[LabelOf(boxes[i]) := []];
    }
    assert boxes[..|boxes|] == boxes;
  }

  method AssignTextToBoxes(tokens: seq<Token>, boxes: seq<Box>) returns (assignments: map<string, seq<Token>>)
    ensures assignments == Assignments(tokens, boxes)
  {
    var unboxed;
    assignments, unboxed := SortTokens(tokens, boxes);
    BoxedBuckets(tokens, boxes, assignments);
    if unboxed != [] {
      assignments := assignments[UnboxedKey := unboxed];
    }
  }

  /** The loop over the tokens: each goes to the list of its first containing box,
      or to the unboxed list. */
  method SortTokens(tokens: seq<Token>, boxes: seq<Box>) returns (buckets: map<string, seq<Token>>, unboxed: seq<Token>)
    ensures buckets.Keys == Labels(boxes)
    ensures BucketsMatch(buckets, tokens, Classifier(boxes))
    ensures unboxed == FilterEq(tokens, Classifier(boxes), None)
  {
    ghost var f := Classifier(boxes);
    buckets := EmptyBuckets(boxes);
    unboxed := [];
    for i := 0 to |tokens|
      invariant buckets.Keys == Labels(boxes)
      invariant BucketsMatch(buckets, tokens[..i], f)
      invariant unboxed == FilterEq(tokens[..i], f, None)
    {
      var t := tokens[i];
      var k := FindBox(boxes, t);
      assert tokens[..i + 1] == tokens[..i] + [t];
      assert f(t) == BoxedLabel(boxes, t);
      FilterEqStep(tokens[..i], t, f, None);
      if k.Some? {
        var l := LabelOf(boxes[k.value]);
        assert boxes[k.value] in boxes;
        PlaceBoxed(tokens[..i], t, f, buckets, l);
        buckets := buckets[l := buckets[l] + [t]];
      } else {
        PlaceUnboxed(tokens[..i], t, f, buckets);
        unboxed := unboxed + [t];
      }
    }
    assert tokens[..|tokens|] == tokens;
  }

  /** Each box-label list holds the tokens of `done` taken by a box of that label. */
  predicate BucketsMatch(a: map<string, seq<Token>>, done: seq<Token>, f: Token -> Option<string>) {
    forall l :: l in a ==> a[l] == FilterEq(done, f, Some(l))
  }

  lemma BoxedBuckets(tokens: seq<Token>, boxes: seq<Box>, a: map<string, seq<Token>>)
    requires a.Keys == Labels(boxes)
    requires BucketsMatch(a, tokens, Classifier(boxes))
    ensures a == map l | l in Labels(boxes) :: FilterEq(tokens, Classifier(boxes), Some(l))
  {
  }

  lemma PlaceBoxed(done: seq<Token>, t: Token, f: Token -> Option<string>, a: map<string, seq<Token>>, l: string)
    requires BucketsMatch(a, done, f) && l in a && f(t) == Some(l)
    ensures BucketsMatch(a[l := a[l] + [t]], done + [t], f)
  {
    forall l' | l' in a
      ensures FilterEq(done + [t], f, Some(l')) == a[l'] + (if l' == l then [t] else [])
    {
      FilterEqAppend(done, [t], f, Some(l'));
    }
  }

  lemma PlaceUnboxed(done: seq<Token>, t: Token, f: Token -> Option<string>, a: map<string, seq<Token>>)
    requires BucketsMatch(a, done, f) && f(t) == None
    ensures BucketsMatch(a, done + [t], f)
  {
    forall l' | l' in a
      ensures FilterEq(done + [t], f, Some(l')) == a[l']
    {
      FilterEqAppend(done, [t], f, Some(l'));
    }
  }

  // ---------------------------------------------------------------------------
  // Properties

  /** The bucket a token ends up in. */
  function BucketOf(boxes: seq<Box>, t: Token): string {
    match BoxedLabel(boxes, t)
    case Some(l) => l
    case None => UnboxedKey
  }

  /** Every token lands in the bucket of the first box, in list order, that contains
      its centre (boundaries included), or in `_UNBOXED_`; that bucket exists. */
  lemma AssignedToFirstContainingBox(tokens: seq<Token>, boxes: seq<Box>, t: Token)
    requires UnboxedKey !in Labels(boxes)
    requires t in tokens
    ensures BucketOf(boxes, t) in Assignments(tokens, boxes)
    ensures t in Assignments(tokens, boxes)[BucketOf(boxes, t)]
  {
    var f := Classifier(boxes);
    assert f(t) == BoxedLabel(boxes, t);
    InFilterEq(tokens, f, t);
    if BoxedLabel(boxes, t).Some? {
      var k := FirstBox(boxes, t).value;
      assert boxes[k] in boxes;
      assert LabelOf(boxes[k]) in Labels(boxes);
    }
  }

  /** Boxes whose coordinates are missing or not four numbers receive nothing. */
  lemma MalformedBoxGetsNothing(tokens: seq<Token>, boxes: seq<Box>, k: nat, t: Token)
    requires k < |boxes| && !HasRect(boxes[k])
    ensures FirstBox(boxes, t) != Some(k)
  {
  }

  /** `_UNBOXED_` is a key exactly when some token fits no box, and then it holds
      exactly those tokens, in input order. */
  lemma UnboxedBucket(tokens: seq<Token>, boxes: seq<Box>)
    requires UnboxedKey !in Labels(boxes)
    ensures UnboxedKey in Assignments(tokens, boxes) <==> exists t :: t in tokens && FirstBox(boxes, t).None?
    ensures UnboxedKey in Assignments(tokens, boxes) ==>
      Assignments(tokens, boxes)[UnboxedKey] == FilterEq(tokens, Classifier(boxes), None)
  {
    var f := Classifier(boxes);
    var un := FilterEq(tokens, f, None);
    if t :| t in tokens && FirstBox(boxes, t).None? {
      var i :| 0 <= i < |tokens| && tokens[i] == t;
      assert f(tokens[i]) == None;
      FilterEqMembers(tokens, f, None, t);
    }
    if un != [] {
      FilterEqMembers(tokens, f, None, un[0]);
    }
  }

  /** What the code does with a box labelled `_UNBOXED_`: as soon as some token
      fits no box, the unboxed list replaces that box's list, so a token the box
      took is in no bucket at all. */
  lemma UnboxedLabelOverwritten(tokens: seq<Token>, boxes: seq<Box>, lost: Token, stray: Token)
    requires lost in tokens && BoxedLabel(boxes, lost) == Some(UnboxedKey)
    requires stray in tokens && FirstBox(boxes, stray).None?
    ensures UnboxedKey in Assignments(tokens, boxes)
    ensures Assignments(tokens, boxes)[UnboxedKey] == FilterEq(tokens, Classifier(boxes), None)
    ensures forall l :: l in Assignments(tokens, boxes) ==> lost !in Assignments(tokens, boxes)[l]
  {
    var f := Classifier(boxes);
    assert f(stray) == None && f(lost) == Some(UnboxedKey);
    FilterEqMembers(tokens, f, None, stray);
    FilterEqMembers(tokens, f, None, lost);
    forall l | l in Assignments(tokens, boxes) && l != UnboxedKey
      ensures lost !in Assignments(tokens, boxes)[l]
    {
      FilterEqMembers(tokens, f, Some(l), lost);
    }
  }

  function BucketSizesOf(a: map<string, seq<Token>>, keys: seq<string>): nat
    requires forall l :: l in keys ==> l in a
  {
    if keys == [] then 0 else |a[keys[0]]| + BucketSizesOf(a, keys[1..])
  }

  /** Every token lands in exactly one bucket: when no box is labelled `_UNBOXED_`,
      the buckets together hold exactly as many tokens as were given. */
  lemma EveryTokenInOneBucket(tokens: seq<Token>, boxes: seq<Box>, keys: seq<string>)
    requires UnboxedKey !in Labels(boxes)
    requires Distinct(keys)
    requires forall l :: l in keys <==> l in Assignments(tokens, boxes)
    ensures BucketSizesOf(Assignments(tokens, boxes), keys) == |tokens|
  {
    var a := Assignments(tokens, boxes);
    var okeys := OptionKeys(keys);
    SameSizes(tokens, boxes, keys);
    forall t | t in tokens ensures Classifier(boxes)(t) in okeys {
      AssignedToFirstContainingBox(tokens, boxes, t);
      if BoxedLabel(boxes, t).Some? {
        assert Some(BucketOf(boxes, t)) in okeys;
      } else {
        assert UnboxedKey in keys;
      }
    }
    PartitionCount(tokens, Classifier(boxes), okeys);
  }

  /** Bucket keys as classifier values: a box label `l` is `Some(l)`, `_UNBOXED_` is `None`. */
  function OptionKeys(keys: seq<string>): (r: seq<Option<string>>)
    ensures |r| == |keys|
    ensures forall l :: Some(l) in r <==> l in keys && l != UnboxedKey
    ensures None in r <==> UnboxedKey in keys
    ensures Distinct(keys) ==> Distinct(r)
  {
    if keys == [] then []
    else [if keys[0] == UnboxedKey then None else Some(keys[0])] + OptionKeys(keys[1..])
  }

  lemma {:induction false} SameSizes(tokens: seq<Token>, boxes: seq<Box>, keys: seq<string>)
    requires UnboxedKey !in Labels(boxes)
    requires forall l :: l in keys ==> l in Assignments(tokens, boxes)
    ensures BucketSizesOf(Assignments(tokens, boxes), keys) == BucketSizes(tokens, Classifier(boxes), OptionKeys(keys))
  {
    if keys != [] {
      SameSizes(tokens, boxes, keys[1..]);
    }
  }

  /** Two overlapping zones declared A then B: a token whose centre lies in both goes to A. */
  lemma OverlapGoesToFirstDeclared()
    ensures
      var a := Box(Some("A"), Some([0.0, 0.0, 10.0, 10.0]), None, General, []);
      var b := Box(Some("B"), Some([5.0, 5.0, 15.0, 15.0]), None, General, []);
      var t := Token("X", 6.0, 6.0, 8.0, 8.0);
      BucketOf([a, b], t) == "A"
  {
  }
}
