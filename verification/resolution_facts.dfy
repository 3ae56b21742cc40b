/**
 * What the resolution of a configuration guarantees: every descriptor is
 * made into exactly one slide and the slides come out numbered 0, 1, ...
 * in configuration order; a round that makes nothing raises; a based-on
 * slide has its base's layers with its own edits; repeating the global
 * options changes nothing; the file number is the slide's position.
 */
module ResolutionFacts {
  import opened Base
  import opened Text
  import opened Intervals
  import opened LabelFilter
  import opened Filenames
  import opened SvgFile
  import opened LayerEdits
  import opened Resolution
  import opened EditFacts

  // ---------------------------------------------------------------------
  // Every descriptor becomes exactly one slide

  /** The ids of the slides, counted. */
  function IdBag(slides: seq<Slide>): multiset<nat> {
    if slides == [] then multiset{} else multiset{slides[0].id} + IdBag(slides[1..])
  }

  /** The ids of the pending descriptors, counted. */
  function PendingBag(pending: seq<Pending>): multiset<nat> {
    if pending == [] then multiset{} else multiset{pending[0].id} + PendingBag(pending[1..])
  }

  lemma {:induction false} IdBagAppend(a: seq<Slide>, b: seq<Slide>)
    ensures IdBag(a + b) == IdBag(a) + IdBag(b)
  {
    if a == [] {
      assert a + b == b;
    } else {
      IdBagAppend(a[1..], b);
      IdBagCons(a, b);
      UnionAssoc(multiset{a[0].id}, IdBag(a[1..]), IdBag(b));
    }
  }

  lemma IdBagCons(a: seq<Slide>, b: seq<Slide>)
    requires a != []
    ensures IdBag(a + b) == multiset{a[0].id} + IdBag(a[1..] + b)
  {
    assert (a + b)[0] == a[0] && (a + b)[1..] == a[1..] + b;
  }

  lemma {:induction false} PendingBagAppend(a: seq<Pending>, b: seq<Pending>)
    ensures PendingBag(a + b) == PendingBag(a) + PendingBag(b)
  {
    if a == [] {
      assert a + b == b;
    } else {
      PendingBagAppend(a[1..], b);
      PendingBagCons(a, b);
      UnionAssoc(multiset{a[0].id}, PendingBag(a[1..]), PendingBag(b));
    }
  }

  lemma PendingBagCons(a: seq<Pending>, b: seq<Pending>)
    requires a != []
    ensures PendingBag(a + b) == multiset{a[0].id} + PendingBag(a[1..] + b)
  {
    assert (a + b)[0] == a[0] && (a + b)[1..] == a[1..] + b;
  }

  lemma UnionAssoc(x: multiset<nat>, y: multiset<nat>, z: multiset<nat>)
    ensures x + (y + z) == (x + y) + z
  {
  }

  lemma {:induction false} IdBagMembers(slides: seq<Slide>, x: nat)
    ensures x in IdBag(slides) <==> x in Ids(slides)
  {
    if slides != [] {
      IdBagMembers(slides[1..], x);
      assert Ids(slides) == [slides[0].id] + Ids(slides[1..]);
    }
  }

  lemma {:induction false} PendingBagMembers(pending: seq<Pending>, x: nat)
    ensures x in PendingBag(pending) <==> exists q :: q in pending && q.id == x
  {
    if pending != [] {
      PendingBagMembers(pending[1..], x);
      assert pending == [pending[0]] + pending[1..];
    }
  }

  lemma {:induction false} IdBagSize(slides: seq<Slide>)
    ensures |IdBag(slides)| == |slides|
  {
    if slides != [] {
      IdBagSize(slides[1..]);
    }
  }

  predicate DistinctIds(pending: seq<Pending>) {
    forall i, j :: 0 <= i < j < |pending| ==> pending[i].id != pending[j].id
  }

  /** No pending descriptor has the id of a made slide. */
  predicate Fresh(made: seq<Slide>, pending: seq<Pending>) {
    forall q :: q in pending ==> q.id !in Ids(made)
  }

  lemma {:induction false} RemainingDistinct(made: seq<Slide>, pending: seq<Pending>)
    requires DistinctIds(pending)
    ensures DistinctIds(Remaining(made, pending))
  {
    if pending != [] {
      RemainingDistinct(made, pending[1..]);
      var rest := Remaining(made, pending[1..]);
      forall q | q in rest
        ensures q.id != pending[0].id
      {
        var j :| 0 <= j < |pending[1..]| && pending[1..][j] == q;
        assert pending[j + 1] == q;
      }
    }
  }

  /** The first pending descriptor differs in id from the others. */
  lemma {:induction false} HeadIdFresh(pending: seq<Pending>)
    requires pending != [] && DistinctIds(pending)
    ensures pending[0].id !in PendingBag(pending[1..])
    ensures DistinctIds(pending[1..])
  {
    PendingBagMembers(pending[1..], pending[0].id);
  }

  /** A round appends to the made slides, and what it appends plus what it
      leaves pending are, as ids, exactly the descriptors it was given. */
  lemma {:induction false} RoundAccounts(env: Env, made: seq<Slide>, pending: seq<Pending>)
    requires Round(env, made, pending).Ok?
    requires DistinctIds(pending) && Fresh(made, pending)
    ensures made <= Round(env, made, pending).value
    ensures var after := Round(env, made, pending).value;
      IdBag(after) + PendingBag(Remaining(after, pending)) == IdBag(made) + PendingBag(pending)
    decreases |pending|
  {
    if pending != [] {
      if Ready(made, pending[0].desc) {
        ReadyStep(env, made, pending);
      } else {
        WaitStep(env, made, pending);
      }
    }
  }

  /** Making the first pending descriptor keeps the rest fresh. */
  lemma {:induction false} FreshAfterMaking(made: seq<Slide>, s: Slide, pending: seq<Pending>)
    requires pending != [] && DistinctIds(pending) && Fresh(made, pending)
    requires s.id == pending[0].id
    ensures Fresh(made + [s], pending[1..])
  {
    HeadIdFresh(pending);
    assert Ids(made + [s]) == Ids(made) + [s.id];
    forall q | q in pending[1..] ensures q.id !in Ids(made + [s]) {
      assert q in pending;
      PendingBagMembers(pending[1..], q.id);
    }
  }

  /** A descriptor whose id is made drops out of what remains. */
  lemma {:induction false} RemainingSkipsMade(after: seq<Slide>, pending: seq<Pending>)
    requires pending != [] && pending[0].id in Ids(after)
    ensures Remaining(after, pending) == Remaining(after, pending[1..])
  {
  }

  lemma {:induction false} RemainingKeepsWaiting(after: seq<Slide>, pending: seq<Pending>)
    requires pending != [] && pending[0].id !in Ids(after)
    ensures PendingBag(Remaining(after, pending)) == multiset{pending[0].id} + PendingBag(Remaining(after, pending[1..]))
  {
    assert Remaining(after, pending) == [pending[0]] + Remaining(after, pending[1..]);
  }

  lemma {:induction false} ReadyStep(env: Env, made: seq<Slide>, pending: seq<Pending>)
    requires pending != [] && Ready(made, pending[0].desc)
    requires Round(env, made, pending).Ok?
    requires DistinctIds(pending) && Fresh(made, pending)
    ensures made <= Round(env, made, pending).value
    ensures var after := Round(env, made, pending).value;
      IdBag(after) + PendingBag(Remaining(after, pending)) == IdBag(made) + PendingBag(pending)
    decreases |pending|, 0
  {
    var s := ReadyUnfolds(env, made, pending);
    FreshAfterMaking(made, s, pending);
    RoundAccounts(env, made + [s], pending[1..]);
    ReadyBags(made, s, pending, Round(env, made, pending).value);
  }

  /** A round whose first descriptor is ready makes it, then goes on. */
  lemma {:induction false} ReadyUnfolds(env: Env, made: seq<Slide>, pending: seq<Pending>) returns (s: Slide)
    requires pending != [] && Ready(made, pending[0].desc)
    requires Round(env, made, pending).Ok?
    ensures s.id == pending[0].id
    ensures Round(env, made + [s], pending[1..]) == Round(env, made, pending)
  {
    s := MakeSlide(env, made, pending[0]).value;
  }

  /** The bookkeeping of a round step that makes the first descriptor. */
  lemma {:induction false} ReadyBags(made: seq<Slide>, s: Slide, pending: seq<Pending>, after: seq<Slide>)
    requires pending != [] && s.id == pending[0].id && made + [s] <= after
    requires IdBag(after) + PendingBag(Remaining(after, pending[1..])) == IdBag(made + [s]) + PendingBag(pending[1..])
    ensures IdBag(after) + PendingBag(Remaining(after, pending)) == IdBag(made) + PendingBag(pending)
  {
    assert Ids(after)[|made|] == s.id;
    RemainingSkipsMade(after, pending);
    IdBagSnoc(made, s);
  }

  lemma {:induction false} IdBagSnoc(made: seq<Slide>, s: Slide)
    ensures IdBag(made + [s]) == IdBag(made) + multiset{s.id}
  {
    IdBagAppend(made, [s]);
    assert IdBag([s]) == multiset{s.id};
  }

  lemma {:induction false} WaitStep(env: Env, made: seq<Slide>, pending: seq<Pending>)
    requires pending != [] && !Ready(made, pending[0].desc)
    requires Round(env, made, pending).Ok?
    requires DistinctIds(pending) && Fresh(made, pending)
    ensures made <= Round(env, made, pending).value
    ensures var after := Round(env, made, pending).value;
      IdBag(after) + PendingBag(Remaining(after, pending)) == IdBag(made) + PendingBag(pending)
    decreases |pending|, 0
  {
    assert Round(env, made, pending) == Round(env, made, pending[1..]);
    HeadIdFresh(pending);
    assert Fresh(made, pending[1..]) by {
      forall q | q in pending[1..] ensures q in pending { }
    }
    RoundAccounts(env, made, pending[1..]);
    WaitBags(made, pending, Round(env, made, pending).value);
  }

  /** The bookkeeping of a round step that leaves the first descriptor waiting. */
  lemma {:induction false} WaitBags(made: seq<Slide>, pending: seq<Pending>, after: seq<Slide>)
    requires pending != [] && DistinctIds(pending) && Fresh(made, pending)
    requires IdBag(after) + PendingBag(Remaining(after, pending[1..])) == IdBag(made) + PendingBag(pending[1..])
    ensures IdBag(after) + PendingBag(Remaining(after, pending)) == IdBag(made) + PendingBag(pending)
  {
    WaitingNotMade(made, pending, after);
    RemainingKeepsWaiting(after, pending);
    AddToBoth(IdBag(after), PendingBag(Remaining(after, pending[1..])), IdBag(made), PendingBag(pending[1..]), pending[0].id);
  }

  lemma {:induction false} AddToBoth(a: multiset<nat>, b: multiset<nat>, c: multiset<nat>, d: multiset<nat>, x: nat)
    requires a + b == c + d
    ensures a + (multiset{x} + b) == c + (multiset{x} + d)
  {
    forall y ensures (a + (multiset{x} + b))[y] == (c + (multiset{x} + d))[y] {
      assert (a + b)[y] == (c + d)[y];
    }
  }

  /** The waiting descriptor's id is not among the slides made later. */
  lemma {:induction false} WaitingNotMade(made: seq<Slide>, pending: seq<Pending>, after: seq<Slide>)
    requires pending != [] && DistinctIds(pending) && Fresh(made, pending)
    requires IdBag(after) + PendingBag(Remaining(after, pending[1..])) == IdBag(made) + PendingBag(pending[1..])
    ensures pending[0].id !in Ids(after)
  {
    var p := pending[0];
    HeadIdFresh(pending);
    assert p in pending;
    IdBagMembers(made, p.id);
    NotInSum(IdBag(after), PendingBag(Remaining(after, pending[1..])), IdBag(made), PendingBag(pending[1..]), p.id);
    IdBagMembers(after, p.id);
  }

  lemma {:induction false} NotInSum(a: multiset<nat>, b: multiset<nat>, c: multiset<nat>, d: multiset<nat>, x: nat)
    requires a + b == c + d && x !in c && x !in d
    ensures x !in a
  {
    assert (a + b)[x] == a[x] + b[x];
  }

  /** `process_slides`, when it succeeds, holds exactly one slide per
      descriptor, next to the slides made before. */
  lemma {:induction false} ProcessAccounts(env: Env, made: seq<Slide>, pending: seq<Pending>)
    requires Process(env, made, pending).Ok?
    requires DistinctIds(pending) && Fresh(made, pending)
    ensures IdBag(Process(env, made, pending).value) == IdBag(made) + PendingBag(pending)
    decreases |pending|
  {
    var after := Round(env, made, pending).value;
    RoundAccounts(env, made, pending);
    var rest := Remaining(after, pending);
    var deep := if |rest| != 0 && |rest| != |pending| then Process(env, after, rest).value else after;
    if |rest| != 0 && |rest| != |pending| {
      RemainingDistinct(after, pending);
      ProcessAccounts(env, after, rest);
    } else {
      assert rest == [];
    }
    assert IdBag(deep) == IdBag(made) + PendingBag(pending);
    GlobalsKeepIds(env, deep);
  }

  /** The global options change the layers of the slides and nothing else. */
  lemma {:induction false} GlobalsKeepIds(env: Env, slides: seq<Slide>)
    requires Globals(env, slides).Ok?
    ensures IdBag(Globals(env, slides).value) == IdBag(slides)
  {
    var added := GlobalPass(env, env.options.add, Add, slides).value;
    assert Ids(added) == Ids(slides);
    assert Ids(Globals(env, slides).value) == Ids(slides);
    SameIds(added, slides);
    SameIds(Globals(env, slides).value, added);
  }

  lemma {:induction false} SameIds(a: seq<Slide>, b: seq<Slide>)
    requires Ids(a) == Ids(b)
    ensures IdBag(a) == IdBag(b)
  {
    if a != [] {
      assert Ids(a[1..]) == Ids(a)[1..] && Ids(b[1..]) == Ids(b)[1..];
      SameIds(a[1..], b[1..]);
    }
  }

  // ---------------------------------------------------------------------
  // Sorting the slides by id

  lemma {:induction false} InsertIds(s: Slide, sorted: seq<Slide>)
    ensures IdBag(Insert(s, sorted)) == IdBag(sorted) + multiset{s.id}
  {
    if sorted != [] && s.id >= sorted[0].id {
      var tail := Insert(s, sorted[1..]);
      InsertIds(s, sorted[1..]);
      assert ([sorted[0]] + tail)[1..] == tail;
    }
  }

  lemma {:induction false} InsertMembers(s: Slide, sorted: seq<Slide>)
    ensures forall x :: x in Insert(s, sorted) <==> x == s || x in sorted
  {
    if sorted != [] && s.id >= sorted[0].id {
      InsertMembers(s, sorted[1..]);
      assert sorted == [sorted[0]] + sorted[1..];
    }
  }

  lemma {:induction false} InsertSorted(s: Slide, sorted: seq<Slide>)
    requires SortedById(sorted)
    ensures SortedById(Insert(s, sorted))
  {
    if sorted != [] && s.id >= sorted[0].id {
      var tail := Insert(s, sorted[1..]);
      InsertSorted(s, sorted[1..]);
      InsertMembers(s, sorted[1..]);
      assert forall x :: x in tail ==> sorted[0].id <= x.id;
      var r := [sorted[0]] + tail;
      forall i, j | 0 <= i < j < |r| ensures r[i].id <= r[j].id {
        if i > 0 {
          assert r[i] == tail[i - 1] && r[j] == tail[j - 1];
        } else {
          assert r[j] in tail;
        }
      }
    }
  }

  /** The sort puts the slides in id order and neither loses nor adds one. */
  lemma SortFacts(slides: seq<Slide>)
    ensures SortedById(SortById(slides))
    ensures IdBag(SortById(slides)) == IdBag(slides)
    ensures forall x :: x in SortById(slides) <==> x in slides
  {
    SortSorted(slides);
    SortBag(slides);
    SortMembers(slides);
  }

  lemma {:induction false} SortSorted(slides: seq<Slide>)
    ensures SortedById(SortById(slides))
  {
    if slides != [] {
      SortSorted(slides[..|slides| - 1]);
      InsertSorted(slides[|slides| - 1], SortById(slides[..|slides| - 1]));
    }
  }

  lemma {:induction false} SortBag(slides: seq<Slide>)
    ensures IdBag(SortById(slides)) == IdBag(slides)
  {
    if slides != [] {
      var front := slides[..|slides| - 1];
      var last := slides[|slides| - 1];
      SortBag(front);
      InsertIds(last, SortById(front));
      assert slides == front + [last];
      IdBagAppend(front, [last]);
      IdBagSingle(last);
    }
  }

  lemma IdBagSingle(s: Slide)
    ensures IdBag([s]) == multiset{s.id}
  {
    assert [s][1..] == [];
  }

  lemma {:induction false} SortMembers(slides: seq<Slide>)
    ensures forall x :: x in SortById(slides) <==> x in slides
  {
    if slides != [] {
      var front := slides[..|slides| - 1];
      var last := slides[|slides| - 1];
      SortMembers(front);
      InsertMembers(last, SortById(front));
      assert slides == front + [last];
    }
  }

  /** 0, 1, ..., n - 1, counted. */
  function RangeBag(n: nat): multiset<nat> {
    if n == 0 then multiset{} else RangeBag(n - 1) + multiset{n - 1}
  }

  lemma {:induction false} RangeBagMembers(n: nat, x: nat)
    ensures x in RangeBag(n) <==> x < n
  {
    if n > 0 {
      RangeBagMembers(n - 1, x);
    }
  }

  /** `enumerate` hands out the ids 0 to n-1, each exactly once, so no two
      numbered descriptors share an id. */
  lemma {:induction false} NumberedBag(descs: seq<Descriptor>)
    ensures PendingBag(Numbered(descs)) == RangeBag(|descs|)
    ensures DistinctIds(Numbered(descs))
  {
    if descs != [] {
      var n := |descs|;
      NumberedBag(descs[..n - 1]);
      NumberedSnoc(descs);
      PendingBagAppend(Numbered(descs[..n - 1]), [Pending(n - 1, descs[n - 1])]);
      PendingBagSingle(Pending(n - 1, descs[n - 1]));
    }
  }

  lemma NumberedSnoc(descs: seq<Descriptor>)
    requires descs != []
    ensures Numbered(descs) == Numbered(descs[..|descs| - 1]) + [Pending(|descs| - 1, descs[|descs| - 1])]
  {
    var n := |descs|;
    forall k | 0 <= k < n
      ensures Numbered(descs)[k] == (Numbered(descs[..n - 1]) + [Pending(n - 1, descs[n - 1])])[k]
    {
      if k < n - 1 {
        assert descs[..n - 1][k] == descs[k];
      }
    }
  }

  lemma PendingBagSingle(q: Pending)
    ensures PendingBag([q]) == multiset{q.id}
  {
    assert [q][1..] == [];
  }

  lemma {:induction false} Cancel(a: multiset<nat>, b: multiset<nat>, x: nat)
    requires a + multiset{x} == b + multiset{x}
    ensures a == b
  {
    assert forall y :: a[y] == (a + multiset{x})[y] - multiset{x}[y];
    assert forall y :: b[y] == (b + multiset{x})[y] - multiset{x}[y];
  }

  /** Slides in id order whose ids are 0 .. n-1, each once, carry the ids
      0 .. n-1 by position. */
  lemma {:induction false} SortedRange(slides: seq<Slide>, n: nat)
    requires SortedById(slides)
    requires IdBag(slides) == RangeBag(n)
    ensures |slides| == n && forall k :: 0 <= k < n ==> slides[k].id == k
  {
    IdBagSize(slides);
    RangeBagSize(n);
    if n > 0 {
      var front := slides[..n - 1];
      var last := slides[n - 1];
      LastIsTop(slides, n);
      assert slides == front + [last];
      IdBagAppend(front, [last]);
      assert IdBag([last]) == multiset{last.id};
      Cancel(IdBag(front), RangeBag(n - 1), n - 1);
      SortedRange(front, n - 1);
      forall k | 0 <= k < n
        ensures slides[k].id == k
      {
        if k < n - 1 {
          assert slides[k] == front[k];
        }
      }
    }
  }

  /** The last of n sorted slides with ids 0 .. n-1 has the largest id. */
  lemma LastIsTop(slides: seq<Slide>, n: nat)
    requires SortedById(slides)
    requires IdBag(slides) == RangeBag(n)
    requires 0 < n == |slides|
    ensures slides[n - 1].id == n - 1
  {
    var last := slides[n - 1];
    RangeBagMembers(n, last.id);
    IdBagMembers(slides, last.id);
    assert last.id in Ids(slides);
    RangeBagMembers(n, n - 1);
    IdBagMembers(slides, n - 1);
    var k :| 0 <= k < n && Ids(slides)[k] == n - 1;
    assert slides[k].id <= last.id;
  }

  lemma {:induction false} RangeBagSize(n: nat)
    ensures |RangeBag(n)| == n
  {
    if n > 0 {
      RangeBagSize(n - 1);
    }
  }

  // ---------------------------------------------------------------------
  // Every slide keeps what its descriptor says

  /** The slide's name and settings are those of the descriptor with its
      id; when neither a base nor a global option edits it, its layers are
      the ones its own include and exclude keys pick. */
  predicate Describes(env: Env, chosen: seq<Descriptor>, s: Slide) {
    s.id < |chosen| &&
    s.name == chosen[s.id].name.GetOr("") &&
    s.fnameFmt == Setting(env.options.outfile, chosen[s.id].filename, env.fnameFmt) &&
    s.exportType == Setting(env.options.exportType, chosen[s.id].exportType, env.exportType) &&
    (Unedited(env, chosen[s.id]) ==> PickedByKeys(env, chosen[s.id], s))
  }

  /** Neither a base nor a global option touches the descriptor's layers. */
  predicate Unedited(env: Env, d: Descriptor) {
    d.basedOn.None? && env.options.add.None? && env.options.exclude.None?
  }

  /** The slide's layers are those the descriptor's own keys pick. */
  predicate PickedByKeys(env: Env, d: Descriptor, s: Slide) {
    var picked := FilteredLabels(Current, DrawingLabels(env), Filters(d.toInclude, d.toExclude));
    picked.Ok? && s.layers == FilteredLayerObjs(env.drawing.layers, picked.value)
  }

  predicate AllDescribed(env: Env, chosen: seq<Descriptor>, slides: seq<Slide>) {
    forall s :: s in slides ==> Describes(env, chosen, s)
  }

  predicate FromChosen(chosen: seq<Descriptor>, pending: seq<Pending>) {
    forall q :: q in pending ==> q.id < |chosen| && q.desc == chosen[q.id]
  }

  lemma {:induction false} RoundDescribes(env: Env, chosen: seq<Descriptor>, made: seq<Slide>, pending: seq<Pending>)
    requires Round(env, made, pending).Ok?
    requires AllDescribed(env, chosen, made) && FromChosen(chosen, pending)
    ensures AllDescribed(env, chosen, Round(env, made, pending).value)
    decreases |pending|
  {
    if pending != [] {
      assert pending[0] in pending;
      assert FromChosen(chosen, pending[1..]) by {
        forall q | q in pending[1..] ensures q in pending { }
      }
      if Ready(made, pending[0].desc) {
        var s := MakeSlide(env, made, pending[0]).value;
        RoundDescribes(env, chosen, made + [s], pending[1..]);
      } else {
        RoundDescribes(env, chosen, made, pending[1..]);
      }
    }
  }

  lemma {:induction false} GlobalsDescribe(env: Env, chosen: seq<Descriptor>, slides: seq<Slide>)
    requires Globals(env, slides).Ok? && AllDescribed(env, chosen, slides)
    ensures AllDescribed(env, chosen, Globals(env, slides).value)
  {
    var added := GlobalPass(env, env.options.add, Add, slides).value;
    var r := Globals(env, slides).value;
    forall s | s in r ensures Describes(env, chosen, s) {
      var k :| 0 <= k < |r| && r[k] == s;
      assert slides[k] in slides;
    }
  }

  lemma {:induction false} ProcessDescribes(env: Env, chosen: seq<Descriptor>, made: seq<Slide>, pending: seq<Pending>)
    requires Process(env, made, pending).Ok?
    requires AllDescribed(env, chosen, made) && FromChosen(chosen, pending)
    ensures AllDescribed(env, chosen, Process(env, made, pending).value)
    decreases |pending|
  {
    var after := Round(env, made, pending).value;
    RoundDescribes(env, chosen, made, pending);
    var rest := Remaining(after, pending);
    var deep := if |rest| != 0 && |rest| != |pending| then Process(env, after, rest).value else after;
    if |rest| != 0 && |rest| != |pending| {
      ProcessDescribes(env, chosen, after, rest);
    }
    GlobalsDescribe(env, chosen, deep);
  }

  // ---------------------------------------------------------------------
  // The loaded slides

  /** The configuration's slides come out as slides 0, 1, ..., one per
      descriptor (one per layer in stacked mode) and in that order, each
      with its descriptor's name and settings, and its file name made from
      its own position among the slides. */
  lemma {:induction false} LoadSlidesNumbering(env: Env, descs: seq<Descriptor>)
    requires LoadSlides(env, descs).Ok?
    ensures var r := LoadSlides(env, descs).value;
      |r| == |Chosen(env, descs)| &&
      forall k :: 0 <= k < |r| ==>
        r[k].id == k &&
        Describes(env, Chosen(env, descs), r[k]) &&
        r[k].filename == GetFilename(r[k].fnameFmt, Some(env.drawing.basefilename), Some("svg"),
                                     FileNumber(r[k].fnameFmt, k, |r|))
  {
    var chosen := Chosen(env, descs);
    ResolvedInOrder(env, chosen);
    var sorted := SortById(Process(env, [], Numbered(chosen)).value);
    var r := LoadSlides(env, descs).value;
    assert r == Named(env.drawing.basefilename, sorted);
    forall k | 0 <= k < |r|
      ensures r[k].id == k && Describes(env, chosen, r[k])
    {
      assert r[k] == sorted[k].(filename := r[k].filename);
    }
  }

  /** `get_slide_specific_setting` for slide k: the command-line value
      wins over the slide's own key, which wins over the configuration's
      value, for the file name template and for the export type alike. */
  lemma {:induction false} SettingsPrecedence(env: Env, descs: seq<Descriptor>, k: nat)
    requires LoadSlides(env, descs).Ok? && k < |Chosen(env, descs)|
    ensures var r := LoadSlides(env, descs).value;
      var d := Chosen(env, descs)[k];
      var cli := env.options;
      k < |r| &&
      (cli.outfile.Some? ==> r[k].fnameFmt == cli.outfile.value) &&
      (cli.outfile.None? && d.filename.Some? ==> r[k].fnameFmt == d.filename.value) &&
      (cli.outfile.None? && d.filename.None? ==> r[k].fnameFmt == env.fnameFmt) &&
      (cli.exportType.Some? ==> r[k].exportType == cli.exportType.value) &&
      (cli.exportType.None? && d.exportType.Some? ==> r[k].exportType == d.exportType.value) &&
      (cli.exportType.None? && d.exportType.None? ==> r[k].exportType == env.exportType)
  {
    LoadSlidesNumbering(env, descs);
  }

  /** The resolved slides, sorted, are slides 0, 1, ... of the descriptors. */
  lemma {:induction false} ResolvedInOrder(env: Env, chosen: seq<Descriptor>)
    requires Process(env, [], Numbered(chosen)).Ok?
    ensures var sorted := SortById(Process(env, [], Numbered(chosen)).value);
      |sorted| == |chosen| && forall k :: 0 <= k < |sorted| ==> sorted[k].id == k && Describes(env, chosen, sorted[k])
  {
    var pending := Numbered(chosen);
    var made := Process(env, [], pending).value;
    assert Fresh([], pending);
    ProcessAccounts(env, [], pending);
    NumberedBag(chosen);
    ProcessDescribes(env, chosen, [], pending);
    var sorted := SortById(made);
    SortFacts(made);
    SortedRange(sorted, |chosen|);
    forall k | 0 <= k < |sorted|
      ensures Describes(env, chosen, sorted[k])
    {
      assert sorted[k] in made;
    }
  }

  // ---------------------------------------------------------------------
  // A round that makes nothing raises

  /** When no pending descriptor is ready, the round makes nothing. */
  lemma {:induction false} RoundStalled(env: Env, made: seq<Slide>, pending: seq<Pending>)
    requires forall q :: q in pending ==> !Ready(made, q.desc)
    ensures Round(env, made, pending) == Ok(made)
    decreases |pending|
  {
    if pending != [] {
      assert pending[0] in pending;
      RoundStalled(env, made, pending[1..]);
    }
  }

  /** Nothing pending is made yet: everything remains. */
  lemma {:induction false} RemainingFresh(made: seq<Slide>, pending: seq<Pending>)
    requires Fresh(made, pending)
    ensures Remaining(made, pending) == pending
  {
    if pending != [] {
      assert pending[0] in pending;
      RemainingFresh(made, pending[1..]);
    }
  }

  /** `process_slides` raises when none of its descriptors can be made now:
      an unknown base name, a slide based on itself, a cycle of bases, and
      also an empty list of descriptors. */
  lemma {:induction false} StalledRaises(env: Env, made: seq<Slide>, pending: seq<Pending>)
    requires Fresh(made, pending)
    requires forall q :: q in pending ==> !Ready(made, q.desc)
    ensures Process(env, made, pending) == Err(BasedOnUnresolved)
  {
    RoundStalled(env, made, pending);
    RemainingFresh(made, pending);
  }

  /** A configuration without slides (and not in stacked mode) raises. */
  lemma {:induction false} NoSlidesRaise(env: Env)
    requires !env.options.stack
    ensures LoadSlides(env, []) == Err(BasedOnUnresolved)
  {
    assert UniqueNames([]);
    StalledRaises(env, [], Numbered([]));
  }

  /** The descriptors with ids in `blocked` wait for a base name in
      `bases`, no made slide carries such a name, and only blocked
      descriptors would give one. */
  predicate Blocked(made: seq<Slide>, pending: seq<Pending>, bases: set<string>, blocked: set<nat>) {
    (forall b :: b in bases ==> b !in MadeNames(made)) &&
    (forall q :: q in pending && q.id in blocked ==> q.desc.basedOn.Some? && q.desc.basedOn.value in bases) &&
    (forall q :: q in pending && q.desc.name.Some? && q.desc.name.value in bases ==> q.id in blocked)
  }

  /** A round makes no blocked descriptor and gives no slide a base name. */
  lemma {:induction false} RoundKeepsBlocked(env: Env, made: seq<Slide>, pending: seq<Pending>, bases: set<string>, blocked: set<nat>)
    requires Round(env, made, pending).Ok?
    requires Blocked(made, pending, bases, blocked)
    ensures forall b :: b in bases ==> b !in MadeNames(Round(env, made, pending).value)
    ensures forall x :: x in Ids(Round(env, made, pending).value) && x in blocked ==> x in Ids(made)
    decreases |pending|
  {
    if pending != [] {
      var p := pending[0];
      assert p in pending;
      assert Blocked(made, pending[1..], bases, blocked) by {
        assert forall q :: q in pending[1..] ==> q in pending;
      }
      if Ready(made, p.desc) {
        var s := MakeSlide(env, made, p).value;
        assert p.id !in blocked;
        forall b | b in bases ensures b !in MadeNames(made + [s]) {
          assert b == "" || s.name != b;
        }
        assert Blocked(made + [s], pending[1..], bases, blocked);
        RoundKeepsBlocked(env, made + [s], pending[1..], bases, blocked);
        assert Ids(made + [s]) == Ids(made) + [p.id];
      } else {
        RoundKeepsBlocked(env, made, pending[1..], bases, blocked);
      }
    }
  }

  /** Descriptors that wait, directly or through one another, for base
      names only they would give are never made: `process_slides` raises.
      This takes in a base name nobody gives, a slide based on itself and
      a cycle of bases. */
  lemma {:induction false} BlockedRaises(env: Env, made: seq<Slide>, pending: seq<Pending>, bases: set<string>, blocked: set<nat>)
    requires Fresh(made, pending)
    requires exists p :: p in pending && p.id in blocked
    requires Blocked(made, pending, bases, blocked)
    ensures Process(env, made, pending).Err?
    decreases |pending|
  {
    var r := Round(env, made, pending);
    if r.Ok? {
      var after := r.value;
      RoundKeepsBlocked(env, made, pending, bases, blocked);
      var p :| p in pending && p.id in blocked;
      var rest := Remaining(after, pending);
      assert p in rest;
      if |rest| != |pending| {
        assert Blocked(after, rest, bases, blocked);
        BlockedRaises(env, after, rest, bases, blocked);
      }
    }
  }

  /** At the level of the configuration: a non-empty set of slide positions
      whose slides are all based on names that only slides of the set give
      makes the resolution fail. */
  lemma {:induction false} ClosedBasesRaise(env: Env, descs: seq<Descriptor>, blocked: set<nat>)
    requires !env.options.stack
    requires blocked != {} && forall j :: j in blocked ==> j < |descs|
    requires forall j :: j in blocked ==> descs[j].basedOn.Some?
    requires forall j, k :: j in blocked && 0 <= k < |descs| && descs[k].name == descs[j].basedOn ==> k in blocked
    ensures LoadSlides(env, descs).Err?
  {
    if UniqueNames(descs) {
      var pending := Numbered(descs);
      var bases := set j | j in blocked :: descs[j].basedOn.value;
      var j :| j in blocked;
      assert pending[j] in pending;
      forall q | q in pending && q.desc.name.Some? && q.desc.name.value in bases
        ensures q.id in blocked
      {
        var i :| i in blocked && descs[i].basedOn.value == q.desc.name.value;
        assert pending[q.id] == q;
      }
      forall q | q in pending && q.id in blocked
        ensures q.desc.basedOn.Some? && q.desc.basedOn.value in bases
      {
        assert pending[q.id] == q;
      }
      BlockedRaises(env, [], pending, bases, blocked);
    }
  }

  /** A slide based on its own name is never made. */
  lemma {:induction false} SelfBasedRaises(env: Env, descs: seq<Descriptor>, j: nat)
    requires !env.options.stack
    requires j < |descs| && descs[j].name.Some? && descs[j].basedOn == descs[j].name
    ensures LoadSlides(env, descs).Err?
  {
    if UniqueNames(descs) {
      UniqueNamesMeaning(descs);
      ClosedBasesRaise(env, descs, {j});
    }
  }

  // ---------------------------------------------------------------------
  // Unique names

  lemma {:induction false} DescribedNamesMembers(descs: seq<Descriptor>, x: string)
    ensures x in DescribedNames(descs) <==> exists k :: 0 <= k < |descs| && descs[k].name == Some(x)
  {
    if descs != [] {
      DescribedNamesMembers(descs[1..], x);
      if exists k :: 0 <= k < |descs| && descs[k].name == Some(x) {
        var k :| 0 <= k < |descs| && descs[k].name == Some(x);
        if k > 0 {
          assert descs[1..][k - 1] == descs[k];
        }
      }
    }
  }

  /** No two descriptors give the same name. */
  predicate NamesDistinct(descs: seq<Descriptor>) {
    forall i, j :: 0 <= i < j < |descs| && descs[i].name.Some? ==> descs[i].name != descs[j].name
  }

  /** `check_unique_slide_names` accepts exactly the descriptor lists in
      which no two descriptors give the same name. */
  lemma {:induction false} UniqueNamesMeaning(descs: seq<Descriptor>)
    ensures UniqueNames(descs) <==> NamesDistinct(descs)
  {
    if descs != [] {
      UniqueNamesMeaning(descs[1..]);
      NamesDistinctCons(descs);
      var rest := DescribedNames(descs[1..]);
      if descs[0].name.Some? {
        var x := descs[0].name.value;
        assert DescribedNames(descs) == [x] + rest;
        DescribedNamesMembers(descs[1..], x);
        NoDuplicatesCons(x, rest);
        assert (exists k :: 0 <= k < |descs[1..]| && descs[1..][k].name == Some(x)) <==>
               (exists k :: 0 < k < |descs| && descs[k].name == Some(x)) by {
          if exists k :: 0 <= k < |descs[1..]| && descs[1..][k].name == Some(x) {
            var k :| 0 <= k < |descs[1..]| && descs[1..][k].name == Some(x);
            assert descs[k + 1].name == Some(x);
          }
          if exists k :: 0 < k < |descs| && descs[k].name == Some(x) {
            var k :| 0 < k < |descs| && descs[k].name == Some(x);
            assert descs[1..][k - 1].name == Some(x);
          }
        }
      } else {
        assert DescribedNames(descs) == rest;
      }
    }
  }

  lemma {:induction false} NamesDistinctCons(descs: seq<Descriptor>)
    requires descs != []
    ensures NamesDistinct(descs) <==>
      (descs[0].name.Some? ==> forall k :: 0 < k < |descs| ==> descs[k].name != descs[0].name) &&
      NamesDistinct(descs[1..])
  {
    var tail := descs[1..];
    assert forall k :: 0 < k < |descs| ==> descs[k] == tail[k - 1];
    if (descs[0].name.Some? ==> forall k :: 0 < k < |descs| ==> descs[k].name != descs[0].name) && NamesDistinct(tail) {
      forall i, j | 0 <= i < j < |descs| && descs[i].name.Some? ensures descs[i].name != descs[j].name {
        if i > 0 {
          assert descs[i] == tail[i - 1] && descs[j] == tail[j - 1];
        }
      }
    }
    if NamesDistinct(descs) {
      forall i, j | 0 <= i < j < |tail| && tail[i].name.Some? ensures tail[i].name != tail[j].name {
        assert descs[i + 1] == tail[i] && descs[j + 1] == tail[j];
      }
    }
  }

  lemma {:induction false} NoDuplicatesCons(x: string, rest: seq<string>)
    ensures NoDuplicates([x] + rest) <==> x !in rest && NoDuplicates(rest)
  {
    var xs := [x] + rest;
    assert forall i :: 0 <= i < |rest| ==> xs[i + 1] == rest[i];
    if NoDuplicates(xs) {
      forall i | 0 <= i < |rest| ensures rest[i] != x {
        assert xs[0] != xs[i + 1];
      }
    }
    if x !in rest && NoDuplicates(rest) {
      forall i, j | 0 <= i < j < |xs| ensures xs[i] != xs[j] {
        if i > 0 {
          assert xs[i] == rest[i - 1];
        }
      }
    }
  }

  /** Two descriptors giving the same name make the configuration raise,
      before any slide is made (also in stacked mode). */
  lemma {:induction false} DuplicateNamesRaise(env: Env, descs: seq<Descriptor>, i: nat, j: nat)
    requires i < j < |descs| && descs[i].name.Some? && descs[i].name == descs[j].name
    ensures LoadSlides(env, descs) == Err(DuplicateName)
  {
    UniqueNamesMeaning(descs);
    assert !NamesDistinct(descs);
  }

  // ---------------------------------------------------------------------
  // File numbers and stacked slides

  /** A slide gets a file number exactly when its template holds `%n`; the
      number is its index, zero-padded to as many digits as the slide count has. */
  lemma {:induction false} FileNumberPadded(fmt: string, index: nat, count: nat)
    requires index < count
    ensures FileNumber(fmt, index, count).Some? <==> !NoMarker(fmt, 'n')
    ensures FileNumber(fmt, index, count).Some? ==>
      |FileNumber(fmt, index, count).value| == DigitCount(count) &&
      ParseNat(FileNumber(fmt, index, count).value) == Some(index)
  {
    MarkerOccurs(fmt, 'n');
    DigitCountMonotone(index, count);
    PaddedIndex(index, DigitCount(count));
  }

  /** Stacked descriptors grow by one label each: the first holds the first
      label, each next one adds the next label, the last holds them all. */
  lemma {:induction false} StackedGrowth(labels: seq<string>)
    ensures var r := StackedDescriptors(labels);
      (forall i :: 0 <= i < |r| ==> r[i].toInclude.Some? && r[i].name.None? && r[i].basedOn.None? && r[i].toExclude.None?) &&
      (|r| > 0 ==> r[0].toInclude.value == [labels[0]] && r[|r| - 1].toInclude.value == labels) &&
      forall i :: 0 <= i < |r| - 1 ==> r[i + 1].toInclude.value == r[i].toInclude.value + [labels[i + 1]]
  {
  }

  /** In stacked mode, with distinct labels none of which reads as an
      interval expression and no global option, slide k holds exactly the
      layers 0..k. */
  lemma {:induction false} StackedSlideLayers(env: Env, descs: seq<Descriptor>, k: nat, n: nat)
    requires env.options.stack && env.options.add.None? && env.options.exclude.None?
    requires NoDuplicates(DrawingLabels(env))
    requires forall x :: x in DrawingLabels(env) ==> ParseIntervals(Current, x) == Ok(None)
    requires LoadSlides(env, descs).Ok?
    requires k < |LoadSlides(env, descs).value| && n < |DrawingLabels(env)|
    ensures DrawingLabels(env)[n] in LabelsOf(LoadSlides(env, descs).value[k].layers) <==> n <= k
  {
    var labels := DrawingLabels(env);
    var chosen := Chosen(env, descs);
    LoadSlidesNumbering(env, descs);
    var s := LoadSlides(env, descs).value[k];
    var d := chosen[k];
    assert d.toInclude == Some(labels[..k + 1]) && d.toExclude.None? && d.basedOn.None?;
    var f := Filters(d.toInclude, d.toExclude);
    var picked := FilteredLabels(Current, labels, f).value;
    assert s.layers == FilteredLayerObjs(env.drawing.layers, picked);
    KeptLabel(Current, labels, f, n);
    StackedSelects(labels, k, n);
    FilteredSubset(labels, f);
    ObjectsKeepLabels(env, picked);
  }

  /** The stacked include key of slide k picks layer n exactly when n <= k. */
  lemma {:induction false} StackedSelects(labels: seq<string>, k: nat, n: nat)
    requires NoDuplicates(labels) && k < |labels| && n < |labels|
    requires forall x :: x in labels ==> ParseIntervals(Current, x) == Ok(None)
    ensures forall i :: 0 <= i < |labels| && i != n ==> labels[i] != labels[n]
    ensures Kept(Current, labels, Filters(Some(labels[..k + 1]), None), n) <==> n <= k
  {
  }
}
