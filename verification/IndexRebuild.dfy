/**
 * The scheduling loop of `rebuild_indexes` in rethinkdb/_index_rebuild.py: every index is built again
 * under a temporary name, a few at a time, and then renamed over the old one. The server is a map from
 * indexes to their functions, and a schedule that says when an index is ready and how far it has come.
 */
module IndexRebuild {
  import opened Wrappers

  type Function(==, !new)

  const TMP_INDEX_PREFIX := "$reql_temp_index$_"

  /** An index by its table - database and name - and its own name */
  datatype Index = Index(table: (string, string), name: string)

  type Database = map<Index, Function>

  datatype Status = Status(ready: bool, progress: real)

  /** What `index_status` says of an index in the n-th round of the loop */
  type Schedule = (nat, Index) -> Status

  predicate IsTemporary(index: Index) {
    TMP_INDEX_PREFIX <= index.name
  }

  function Temporary(index: Index): (temp: Index)
    ensures IsTemporary(temp) && temp.table == index.table && temp.name[|TMP_INDEX_PREFIX|..] == index.name
    ensures temp.name == "$reql_temp_index$_" + index.name
  {
    Index(index.table, TMP_INDEX_PREFIX + index.name)
  }

  function Original(temp: Index): (index: Index)
    requires IsTemporary(temp)
    ensures Temporary(index) == temp
  {
    Index(temp.table, temp.name[|TMP_INDEX_PREFIX|..])
  }

  lemma OriginalOfTemporary(index: Index)
    ensures Original(Temporary(index)) == index
  {
  }

  ghost predicate Sensible(status: Schedule) {
    forall n, index :: 0.0 <= status(n, index).progress <= 1.0
  }

  /** From some round on every index is ready. */
  ghost predicate ReadyBy(status: Schedule, deadline: nat) {
    forall n, index :: n >= deadline ==> status(n, index).ready
  }

  /** The indexes differ from each other, and none has the name of a temporary one. */
  ghost predicate Proper(indexes: multiset<Index>) {
    forall x :: x in indexes ==> indexes[x] == 1 && !IsTemporary(x)
  }

  // ----- what the database is to be -----

  function Lookup(db: Database, index: Index): Option<Function> {
    if index in db then Some(db[index]) else None
  }

  /** The function an index is rebuilt with: a temporary index found at the start is taken as it is. */
  function Source(db: Database, index: Index): Option<Function> {
    if Temporary(index) in db then Some(db[Temporary(index)]) else Lookup(db, index)
  }

  /** What is found under a name once the indexes in `building` have a temporary and those in `done` are renamed */
  function Expected(db: Database, building: multiset<Index>, done: multiset<Index>, index: Index): Option<Function> {
    if IsTemporary(index) then
      if Original(index) in done then None
      else if Original(index) in building then Source(db, Original(index))
      else Lookup(db, index)
    else if index in done then
      Source(db, index)
    else
      Lookup(db, index)
  }

  ghost predicate Rebuilt(before: Database, after: Database, building: multiset<Index>, done: multiset<Index>) {
    forall index :: Lookup(after, index) == Expected(before, building, done, index)
  }

  /** An index that is not renamed yet is there exactly if it was there at the start. */
  lemma Untouched(before: Database, db: Database, building: multiset<Index>, done: multiset<Index>, x: Index)
    requires Rebuilt(before, db, building, done) && !IsTemporary(x) && x !in done
    ensures x in db <==> x in before
  {
    assert Lookup(db, x) == Expected(before, building, done, x);
  }

  /** Creating the temporary index, unless there is one */
  lemma CreateStep(before: Database, db: Database, building: multiset<Index>, done: multiset<Index>, x: Index)
    requires Rebuilt(before, db, building, done) && !IsTemporary(x)
    requires x !in building && x !in done && x in before && x in db
    ensures Rebuilt(before, if Temporary(x) in db then db else db[Temporary(x) := db[x]], building + multiset{x}, done)
  {
    var after := if Temporary(x) in db then db else db[Temporary(x) := db[x]];
    OriginalOfTemporary(x);
    assert Lookup(db, x) == Expected(before, building, done, x);
    assert Lookup(db, Temporary(x)) == Expected(before, building, done, Temporary(x));
    forall index ensures Lookup(after, index) == Expected(before, building + multiset{x}, done, index) {
      assert Lookup(db, index) == Expected(before, building, done, index);
    }
  }

  /** Renaming the temporary index over the old one */
  lemma RenameStep(before: Database, db: Database, building: multiset<Index>, done: multiset<Index>, x: Index)
    requires Rebuilt(before, db, building, done) && !IsTemporary(x) && x in building && x !in done && x in before
    ensures Temporary(x) in db
    ensures Rebuilt(before, (db - {Temporary(x)})[x := db[Temporary(x)]], building, done + multiset{x})
  {
    OriginalOfTemporary(x);
    assert Lookup(db, Temporary(x)) == Expected(before, building, done, Temporary(x));
    var after := (db - {Temporary(x)})[x := db[Temporary(x)]];
    forall index ensures Lookup(after, index) == Expected(before, building, done + multiset{x}, index) {
      assert Lookup(db, index) == Expected(before, building, done, index);
    }
  }

  /** The last one waiting is not in another place. */
  lemma LastWaiting(waiting: seq<Index>, building: seq<Index>, renamed: seq<Index>, all: multiset<Index>)
    requires Proper(all) && multiset(waiting) + multiset(building) + multiset(renamed) == all && waiting != []
    ensures var n := |waiting| - 1;
            var x := waiting[n];
            && x in all && !IsTemporary(x) && x !in building && x !in renamed
            && multiset(waiting[..n]) + multiset(building + [x]) + multiset(renamed) == all
            && multiset(building + [x]) == multiset(building) + multiset{x}
  {
    var n := |waiting| - 1;
    var x := waiting[n];
    assert waiting == waiting[..n] + [x];
    assert x in multiset(waiting);
    assert all[x] == multiset(waiting)[x] + multiset(building)[x] + multiset(renamed)[x];
  }

  // ----- the loop -----

  /** An index in progress and whether it was found ready */
  datatype Building = Building(index: Index, ready: bool)

  function Names(bs: seq<Building>): (names: seq<Index>)
    ensures |names| == |bs| && forall i :: 0 <= i < |bs| ==> names[i] == bs[i].index
  {
    seq(|bs|, i requires 0 <= i < |bs| => bs[i].index)
  }

  function NotReady(bs: seq<Building>): (r: seq<Building>)
    ensures |r| <= |bs|
    ensures forall i :: 0 <= i < |r| ==> !r[i].ready && r[i] in bs
  {
    if bs == [] then []
    else NotReady(bs[..|bs| - 1]) + (if bs[|bs| - 1].ready then [] else [bs[|bs| - 1]])
  }

  /**
   * When everything is renamed: no temporary index of theirs is left, what else there was is as it was,
   * and an index has its original function exactly if no temporary index with another one was lying
   * there at the start.
   */
  lemma WhenAllAreDone(before: Database, after: Database, all: multiset<Index>, x: Index)
    requires Rebuilt(before, after, multiset{}, all) && Proper(all)
    ensures x in all ==> Temporary(x) !in after
    ensures x in all && x in before ==>
              x in after && (after[x] == before[x] <==> Temporary(x) !in before || before[Temporary(x)] == before[x])
    ensures x !in all && !(IsTemporary(x) && Original(x) in all) ==> Lookup(after, x) == Lookup(before, x)
  {
    OriginalOfTemporary(x);
    assert Lookup(after, x) == Expected(before, multiset{}, all, x);
    assert Lookup(after, Temporary(x)) == Expected(before, multiset{}, all, Temporary(x));
  }

  // ----- one round of questions -----

  /** Four places: waiting, asked and not ready, still to be asked, and renamed */
  ghost predicate Spread(
      waiting: seq<Index>, asked: seq<Index>, unasked: seq<Index>, renamed: seq<Index>, all: multiset<Index>)
  {
    multiset(waiting) + multiset(asked) + multiset(unasked) + multiset(renamed) == all
  }

  lemma NobodyAsked(waiting: seq<Index>, building: seq<Building>, renamed: seq<Index>, all: multiset<Index>, total: nat)
    requires total > 0 && multiset(waiting) + multiset(Names(building)) + multiset(renamed) == all
    ensures NotReady(building[..0]) == [] && Names(building)[0..] == Names(building)
    ensures Spread(waiting, Names(NotReady(building[..0])), Names(building)[0..], renamed, all)
    ensures Share(0, total) == 0.0
  {
    assert Names([]) == [];
    assert Names(building)[0..] == Names(building);
    assert multiset(waiting) + multiset{} + multiset(Names(building)) + multiset(renamed) == all;
  }

  /** The next one is in no other place, and goes to one of two. */
  lemma NextOne(waiting: seq<Index>, asked: seq<Index>, unasked: seq<Index>, renamed: seq<Index>, all: multiset<Index>)
    requires Proper(all) && Spread(waiting, asked, unasked, renamed, all) && unasked != []
    ensures var x := unasked[0];
            && !IsTemporary(x) && x !in renamed
            && Spread(waiting, asked + [x], unasked[1..], renamed, all)
            && Spread(waiting, asked, unasked[1..], renamed + [x], all)
            && multiset(renamed + [x]) == multiset(renamed) + multiset{x}
  {
    var x := unasked[0];
    assert unasked == [x] + unasked[1..];
    assert x in multiset(unasked);
    assert all[x] == multiset(waiting)[x] + multiset(asked)[x] + multiset(unasked)[x] + multiset(renamed)[x];
  }

  lemma NobodyLeft(waiting: seq<Index>, asked: seq<Index>, renamed: seq<Index>, all: multiset<Index>)
    requires Spread(waiting, asked, [], renamed, all)
    ensures multiset(waiting) + multiset(asked) + multiset(renamed) == all
  {
  }

  lemma NotReadyNext(bs: seq<Building>, i: nat, ready: bool)
    requires i < |bs| && !bs[i].ready
    ensures var after := bs[i := Building(bs[i].index, ready)];
            && NotReady(after[..i + 1]) == NotReady(bs[..i]) + (if ready then [] else [bs[i]])
            && Names(NotReady(after[..i + 1])) == Names(NotReady(bs[..i])) + (if ready then [] else [bs[i].index])
            && Names(after) == Names(bs)
  {
    var after := bs[i := Building(bs[i].index, ready)];
    assert after[..i + 1][..i] == bs[..i];
    assert NotReady(bs[..i]) + [] == NotReady(bs[..i]);
  }

  /** Those that were found ready are renamed, so that the others are all that is in progress. */
  lemma DroppedAreDone(
      before: Database, db: Database, waiting: seq<Index>, left: seq<Building>, names: seq<Index>, renamed: seq<Index>,
      renamedBefore: seq<Index>, all: multiset<Index>)
    requires Rebuilt(before, db, multiset(names), multiset(renamed))
    requires multiset(waiting) + multiset(names) + multiset(renamedBefore) == all
    requires Spread(waiting, Names(left), [], renamed, all)
    requires forall x :: x in Names(left) ==> x in names
    ensures Rebuilt(before, db, multiset(Names(left)), multiset(renamed))
  {
    forall index ensures Lookup(db, index) == Expected(before, multiset(Names(left)), multiset(renamed), index) {
      assert Lookup(db, index) == Expected(before, multiset(names), multiset(renamed), index);
      if IsTemporary(index) {
        var x := Original(index);
        assert all[x] == multiset(waiting)[x] + multiset(Names(left))[x] + multiset(renamed)[x];
        assert all[x] == multiset(waiting)[x] + multiset(names)[x] + multiset(renamedBefore)[x];
        assert x in Names(left) ==> x in multiset(names);
      }
    }
  }

  /** What the indexes in progress contribute to the progress ratio */
  function Contribution(status: Schedule, round: nat, bs: seq<Building>, total: nat): real
    requires total > 0
  {
    if bs == [] then 0.0
    else
      var last := bs[|bs| - 1];
      Contribution(status, round, bs[..|bs| - 1], total) + status(round, Temporary(last.index)).progress / total as real
  }

  lemma OneMore(status: Schedule, round: nat, bs: seq<Building>, b: Building, total: nat)
    requires total > 0
    ensures Contribution(status, round, bs + [b], total)
         == Contribution(status, round, bs, total) + status(round, Temporary(b.index)).progress / total as real
  {
    assert (bs + [b])[..|bs|] == bs;
  }

  function Share(n: nat, total: nat): real
    requires total > 0
  {
    n as real / total as real
  }

  lemma MoreShare(n: nat, total: nat, ratio: real, progress: real)
    requires total > 0 && 0.0 <= ratio <= Share(n, total) && 0.0 <= progress <= 1.0
    ensures 0.0 <= ratio + progress / total as real <= Share(n + 1, total)
  {
    var t := total as real;
    assert 0.0 <= progress / t <= 1.0 / t;
    assert Share(n + 1, total) == n as real / t + 1.0 / t;
  }

  lemma AllShares(n: nat, completed: nat, total: nat, ratio: real)
    requires total > 0 && 0.0 <= ratio <= Share(n, total) && n + completed <= total
    ensures 0.0 <= ratio + completed as real / total as real <= 1.0
  {
    SumOfShares(n as real, completed as real, total as real);
  }

  lemma SumOfShares(a: real, b: real, t: real)
    requires t > 0.0 && a >= 0.0 && b >= 0.0 && a + b <= t
    ensures a / t + b / t <= 1.0 && b / t >= 0.0
  {
    assert a / t + b / t == (a + b) / t;
  }

  /** All of these were found ready in this round. */
  predicate WereReady(status: Schedule, round: nat, indexes: seq<Index>) {
    forall i :: 0 <= i < |indexes| ==> status(round, Temporary(indexes[i])).ready
  }

  /** Reported progress never falls and stays between 0 and 1. */
  predicate Rising(reported: seq<real>) {
    && (forall i :: 0 <= i < |reported| ==> 0.0 <= reported[i] <= 1.0)
    && (forall i, j :: 0 <= i < j < |reported| ==> reported[i] <= reported[j])
  }

  class Rebuilder {
    const status: Schedule
    const concurrent: nat
    const totalIndexes: nat
    ghost const original: Database
    ghost const all: multiset<Index>
    var db: Database
    var indexesToBuild: seq<Index>
    var indexesInProgress: seq<Building>
    var progressRatio: real
    var highestProgress: real
    var reported: seq<real>           // the calls of `print_progress`
    ghost var renamed: seq<Index>     // the calls of `index_rename`

    constructor (db: Database, indexes: seq<Index>, concurrent: nat, status: Schedule)
      requires concurrent > 0 && Sensible(status) && Proper(multiset(indexes))
      ensures this.status == status && this.concurrent == concurrent && this.db == original == db
      ensures indexesToBuild == indexes && all == multiset(indexes) && indexesInProgress == [] && reported == []
      ensures Valid()
    {
      this.db, original, this.status, this.concurrent, totalIndexes := db, db, status, concurrent, |indexes|;
      all := multiset(indexes);
      indexesToBuild, indexesInProgress, renamed := indexes, [], [];
      progressRatio, highestProgress, reported := 0.0, 0.0, [];
    }

    /** Waiting, in progress or renamed: every index is in one of the three places, and there once. */
    ghost predicate Placed()
      reads this
    {
      && Proper(all)
      && multiset(indexesToBuild) + multiset(Names(indexesInProgress)) + multiset(renamed) == all
      && |indexesToBuild| + |indexesInProgress| + |renamed| == totalIndexes
      && |indexesInProgress| <= concurrent
      && (forall x :: x in Names(indexesInProgress) ==> x in original)
      && (forall x :: x in renamed ==> x in original)
    }

    ghost predicate Valid()
      reads this
    {
      && concurrent > 0 && Sensible(status)
      && Placed()
      && (forall b :: b in indexesInProgress ==> !b.ready)
      && Rebuilt(original, db, multiset(Names(indexesInProgress)), multiset(renamed))
      && 0.0 <= progressRatio <= 1.0 && 0.0 <= highestProgress <= 1.0
      && Rising(reported) && (reported != [] ==> reported[|reported| - 1] == highestProgress)
    }

    /** Takes the last index of the list and starts it; the result is the index if it does not exist. */
    method StartOne() returns (missing: Option<Index>)
      requires Valid() && |indexesToBuild| > 0 && |indexesInProgress| < concurrent
      modifies this`db, this`indexesToBuild, this`indexesInProgress
      ensures missing.Some? ==> missing.value in all && missing.value !in original
      ensures missing.None? ==>
                var n := |old(indexesToBuild)| - 1;
                && Valid() && indexesToBuild == old(indexesToBuild)[..n]
                && indexesInProgress == old(indexesInProgress) + [Building(old(indexesToBuild)[n], false)]
    {
      hide Rebuilt, Proper, Rising, Sensible, IsTemporary, Temporary, Names;
      var n := |indexesToBuild| - 1;
      var index := indexesToBuild[n];
      ghost var building := Names(indexesInProgress);
      LastWaiting(indexesToBuild, building, renamed, all);
      Untouched(original, db, multiset(building), multiset(renamed), index);
      if index !in db {
        return Some(index);
      }
      CreateTemporary(index, building);
      indexesToBuild := indexesToBuild[..n];
      indexesInProgress := indexesInProgress + [Building(index, false)];
      assert Names(indexesInProgress) == building + [index];
      missing := None;
    }

    /** Creates the temporary index of one that exists, unless there is one. */
    method CreateTemporary(index: Index, ghost building: seq<Index>)
      requires Rebuilt(original, db, multiset(building), multiset(renamed)) && !IsTemporary(index)
      requires index !in building && index !in renamed && index in original && index in db
      modifies this`db
      ensures Rebuilt(original, db, multiset(building) + multiset{index}, multiset(renamed))
    {
      CreateStep(original, db, multiset(building), multiset(renamed), index);
      if Temporary(index) !in db {
        db := db[Temporary(index) := db[index]];
      }
    }

    /** Keeps the allowed number of indexes in progress, as long as there are some waiting. */
    method FillUp() returns (missing: Option<Index>)
      requires Valid()
      modifies this`db, this`indexesToBuild, this`indexesInProgress
      ensures missing.Some? ==> missing.value in all && missing.value !in original
      ensures missing.None? ==>
                && Valid()
                && |indexesToBuild| + |indexesInProgress| == old(|indexesToBuild| + |indexesInProgress|)
                && indexesToBuild <= old(indexesToBuild) && old(indexesInProgress) <= indexesInProgress
                && (indexesToBuild == [] || |indexesInProgress| == concurrent)
    {
      hide Rebuilt, Proper, Rising, Sensible, Placed;
      missing := None;
      while |indexesToBuild| > 0 && |indexesInProgress| < concurrent
        invariant Valid() && missing.None?
        invariant |indexesToBuild| + |indexesInProgress| == old(|indexesToBuild| + |indexesInProgress|)
        invariant indexesToBuild <= old(indexesToBuild) && old(indexesInProgress) <= indexesInProgress
        decreases |indexesToBuild|
      {
        missing := StartOne();
        if missing.Some? {
          return;
        }
      }
      WithinBound();
    }

    lemma WithinBound()
      requires Valid()
      ensures |indexesInProgress| <= concurrent
    {
    }

    method ReportProgress()
      requires Valid()
      modifies this`highestProgress, this`reported
      ensures Valid()
      ensures highestProgress == if old(highestProgress) >= progressRatio then old(highestProgress) else progressRatio
      ensures reported == old(reported) + [highestProgress]
    {
      if highestProgress < progressRatio {
        highestProgress := progressRatio;
      }
      reported := reported + [highestProgress];
    }

    /** The progress of those in progress and the share of those completed */
    ghost function Ratio(round: nat): real
      reads this
      requires totalIndexes > 0
    {
      Contribution(status, round, indexesInProgress, totalIndexes)
      + (totalIndexes - |indexesToBuild| - |indexesInProgress|) as real / totalIndexes as real
    }

    /** In the middle of a round: the first `i` of `names` have been asked, and `asked` of them are not ready. */
    ghost predicate Asking(round: nat, i: nat, names: seq<Index>, asked: seq<Building>)
      reads this
    {
      && totalIndexes > 0 && Proper(all)
      && i <= |indexesInProgress| && Names(indexesInProgress) == names
      && (forall j :: i <= j < |indexesInProgress| ==> !indexesInProgress[j].ready)
      && NotReady(indexesInProgress[..i]) == asked
      && (forall b :: b in asked ==> !status(round, Temporary(b.index)).ready)
      && Spread(indexesToBuild, Names(asked), names[i..], renamed, all)
      && |indexesToBuild| + |asked| + (|names| - i) + |renamed| == totalIndexes
      && (forall x :: x in names ==> x in original)
      && (forall x :: x in renamed ==> x in original)
      && Rebuilt(original, db, multiset(names), multiset(renamed))
      && 0.0 <= progressRatio <= Share(|asked|, totalIndexes)
      && progressRatio == Contribution(status, round, asked, totalIndexes)
    }

    /** The body of the loop over the indexes in progress */
    method Ask(round: nat, i: nat, ghost names: seq<Index>, ghost asked: seq<Building>)
      returns (ghost more: seq<Building>)
      requires Asking(round, i, names, asked) && i < |indexesInProgress| && Sensible(status)
      modifies this`db, this`indexesInProgress, this`progressRatio, this`renamed
      ensures Asking(round, i + 1, names, more) && |indexesInProgress| == |names|
      ensures renamed == old(renamed)
              || (renamed == old(renamed) + [names[i]] && status(round, Temporary(names[i])).ready)
    {
      hide Rebuilt, Proper, NotReady, Names, Spread, Share, Temporary, Contribution;
      var index := indexesInProgress[i].index;
      var state := status(round, Temporary(index));
      NextOne(indexesToBuild, Names(asked), names[i..], renamed, all);
      NotReadyNext(indexesInProgress, i, state.ready);
      assert names[i..][1..] == names[i + 1..] && names[i..][0] == index && index in names;
      if state.ready {
        more := asked;
        assert asked + [] == asked;
        indexesInProgress := indexesInProgress[i := Building(index, true)];
        RenameStep(original, db, multiset(names), multiset(renamed), index);
        db := (db - {Temporary(index)})[index := db[Temporary(index)]];
        renamed := renamed + [index];
      } else {
        more := asked + [indexesInProgress[i]];
        assert indexesInProgress[i := Building(index, false)] == indexesInProgress;
        MoreShare(|asked|, totalIndexes, progressRatio, state.progress);
        OneMore(status, round, asked, indexesInProgress[i], totalIndexes);
        progressRatio := progressRatio + state.progress / totalIndexes as real;
      }
    }

    /** Before the first question */
    method StartRound(round: nat)
      requires Valid() && totalIndexes > 0
      modifies this`progressRatio
      ensures Asking(round, 0, Names(indexesInProgress), [])
    {
      hide Rebuilt, Proper, Rising, NotReady, Spread, Share, Temporary, Sensible, IsTemporary;
      progressRatio := 0.0;
      NobodyAsked(indexesToBuild, indexesInProgress, renamed, all, totalIndexes);
    }

    /** After the last question: keeps those in progress that are not ready. */
    method FinishRound(round: nat, ghost names: seq<Index>, ghost asked: seq<Building>, ghost renamedBefore: seq<Index>)
      requires Asking(round, |indexesInProgress|, names, asked) && |names| <= concurrent
      requires multiset(indexesToBuild) + multiset(names) + multiset(renamedBefore) == all
      modifies this`indexesInProgress, this`progressRatio
      ensures Placed() && |indexesInProgress| <= |names| && indexesInProgress == asked
      ensures forall b :: b in indexesInProgress ==> !b.ready && !status(round, Temporary(b.index)).ready
      ensures Rebuilt(original, db, multiset(Names(indexesInProgress)), multiset(renamed))
      ensures 0.0 <= progressRatio <= 1.0
      ensures progressRatio == Ratio(round)
    {
      hide Rebuilt, Proper, NotReady, Spread, Share, Temporary, Contribution;
      assert indexesInProgress[..|indexesInProgress|] == indexesInProgress && names[|names|..] == [];
      DroppedAreDone(original, db, indexesToBuild, asked, names, renamed, renamedBefore, all);
      NobodyLeft(indexesToBuild, Names(asked), renamed, all);
      indexesInProgress := NotReady(indexesInProgress);
      var completed := totalIndexes - |indexesToBuild| - |indexesInProgress|;
      AllShares(|indexesInProgress|, completed, totalIndexes, progressRatio);
      progressRatio := progressRatio + completed as real / totalIndexes as real;
    }

    /** Asks for every index in progress and renames those that are ready. */
    method CheckProgress(round: nat)
      requires Valid() && totalIndexes > 0
      modifies this`db, this`indexesInProgress, this`progressRatio, this`renamed
      ensures Valid()
      ensures |indexesInProgress| <= old(|indexesInProgress|)
      ensures forall b :: b in indexesInProgress ==> !status(round, Temporary(b.index)).ready
      ensures old(renamed) <= renamed && WereReady(status, round, renamed[|old(renamed)|..])
      ensures progressRatio == Ratio(round)
    {
      hide Rebuilt, Proper, Rising, Asking, Sensible, Names, Temporary, Contribution;
      ghost var names, asked, renamedBefore := Names(indexesInProgress), [], renamed;
      StartRound(round);
      var i := 0;
      while i < |indexesInProgress|
        invariant i <= |indexesInProgress| == |names|
        invariant Asking(round, i, names, asked)
        invariant renamedBefore <= renamed && WereReady(status, round, renamed[|renamedBefore|..])
      {
        ghost var r := renamed;
        asked := Ask(round, i, names, asked);
        if renamed != r {
          assert renamed[|renamedBefore|..] == r[|renamedBefore|..] + [names[i]];
        }
        i := i + 1;
      }
      FinishRound(round, names, asked, renamedBefore);
    }

    /**
     * The whole loop. It ends because every index becomes ready. It fails exactly when an index does
     * not exist; otherwise every index was renamed over once, has the function it is rebuilt with, and
     * no temporary index of theirs is left.
     */
    method Run(ghost deadline: nat) returns (missing: Option<Index>)
      requires Valid() && ReadyBy(status, deadline)
      requires db == original && renamed == [] && indexesInProgress == [] && reported == []
      modifies this
      ensures missing.None? <==> forall x :: x in all ==> x in original
      ensures missing.None? ==>
                && multiset(renamed) == all
                && Rebuilt(original, db, multiset{}, all)
                && Rising(reported) && reported != [] && reported[|reported| - 1] == 1.0
    {
      hide Rebuilt, Proper, Rising, Sensible;
      var round := 0;
      while |indexesToBuild| > 0 || |indexesInProgress| > 0
        invariant Valid()
        decreases (if round < deadline then deadline - round else 0) + |indexesToBuild| + |indexesInProgress|
      {
        missing := FillUp();
        if missing.Some? {
          return;
        }
        ReportProgress();
        CheckProgress(round);
        NobodyLate(status, round, deadline, indexesInProgress);
        round := round + 1;
      }
      OnlyRenamed(indexesToBuild, indexesInProgress, renamed, all);
      AppendOne(reported, highestProgress);
      reported := reported + [1.0];
      missing := None;
    }
  }

  lemma NobodyLate(status: Schedule, round: nat, deadline: nat, bs: seq<Building>)
    requires ReadyBy(status, deadline)
    requires forall b :: b in bs ==> !status(round, Temporary(b.index)).ready
    ensures round >= deadline ==> bs == []
  {
    if bs != [] {
      var b := bs[0];
      assert !status(round, Temporary(b.index)).ready;
    }
  }

  lemma OnlyRenamed(waiting: seq<Index>, building: seq<Building>, renamed: seq<Index>, all: multiset<Index>)
    requires waiting == [] && building == [] && multiset(waiting) + multiset(Names(building)) + multiset(renamed) == all
    ensures multiset(renamed) == all && multiset(Names(building)) == multiset{}
    ensures forall x :: x in all ==> x in renamed
  {
  }

  lemma AppendOne(reported: seq<real>, highest: real)
    requires Rising(reported)
    ensures Rising(reported + [1.0])
  {
  }

  function AtOnce(round: nat, index: Index): Status {
    Status(true, 1.0)
  }

  /**
   * One index, and a temporary index of its name with another function, which another process created
   * between the wipe-out of such indexes and the loop: the index takes over that function.
   */
  method TakesOver(index: Index, own: Function, other: Function) returns (after: Database)
    requires !IsTemporary(index) && own != other
    ensures after == map[index := other]
  {
    var before := map[index := own, Temporary(index) := other];
    assert Proper(multiset([index]));
    var rebuilder := new Rebuilder(before, [index], 1, AtOnce);
    var missing := rebuilder.Run(0);
    after := rebuilder.db;
    WhenAllAreDone(before, after, multiset([index]), index);
    forall x ensures Lookup(after, x) == Lookup(map[index := other], x) {
      assert Lookup(after, x) == Expected(before, multiset{}, multiset([index]), x);
      if IsTemporary(x) && Original(x) != index {
        assert x != Temporary(index);
      }
    }
    assert after.Keys == (map[index := other]).Keys by {
      forall x ensures x in after <==> x == index {
        assert Lookup(after, x) == Lookup(map[index := other], x);
      }
    }
    assert Lookup(after, index) == Some(other);
  }
}
