/** The per-frame pass over the enemy list in `logic`: every enemy found
    inactive is spliced out of the list, and every enemy's logic is run.
    Enemies are named by their position in the list at the start of the frame
    (0, 1, ...), and `alive[e]` is the active flag of enemy e when the pass
    reaches it; a visit stands for the call of e's logic. */
module EnemySweep {

  /** The enemy names 0 .. n-1, in list order. */
  function Ids(n: nat): (r: seq<nat>)
    ensures |r| == n
    ensures forall i :: 0 <= i < n ==> r[i] == i
  {
    if n == 0 then [] else Ids(n - 1) + [n - 1]
  }

  predicate Dead(alive: seq<bool>, e: nat)
  {
    e < |alive| && !alive[e]
  }

  /** The pass as written: a forEach over the list that splices the current
      element out when it is inactive and then runs its logic anyway. As
      forEach does, it visits the indices below the length the list had when
      the pass began and skips an index once the list has become shorter
      than it. Returns the list afterwards and the enemies visited, in order:
      the list only shrinks, and no index is visited twice. */
  function SpliceWalk(list: seq<nat>, alive: seq<bool>, k: nat, len0: nat): (r: (seq<nat>, seq<nat>))
    ensures |r.0| <= |list|
    ensures k <= len0 ==> |r.1| <= len0 - k
    decreases len0 - k
  {
    if k >= len0 then (list, [])
    else if k >= |list| then SpliceWalk(list, alive, k + 1, len0)
    else
      var e := list[k];
      var list' := if Dead(alive, e) then list[..k] + list[k + 1..] else list;
      var (rest, visited) := SpliceWalk(list', alive, k + 1, len0);
      (rest, [e] + visited)
  }

  /** The index loop of `logic` over the enemy list, with the splice, as
      written. */
  method ForEachWithSplice(alive: seq<bool>) returns (list: seq<nat>, visited: seq<nat>)
    ensures (list, visited) == SpliceWalk(Ids(|alive|), alive, 0, |alive|)
  {
    list := Ids(|alive|);
    visited := [];
    var len0 := |list|;
    var k := 0;
    assert visited + SpliceWalk(list, alive, k, len0).1 == SpliceWalk(list, alive, k, len0).1;
    while k < len0
      invariant k <= len0
      invariant SpliceWalk(Ids(|alive|), alive, 0, len0) ==
                (SpliceWalk(list, alive, k, len0).0, visited + SpliceWalk(list, alive, k, len0).1)
    {
      if k < |list| {
        var e := list[k];
        var list' := if Dead(alive, e) then list[..k] + list[k + 1..] else list;
        ghost var rest := SpliceWalk(list', alive, k + 1, len0);
        assert SpliceWalk(list, alive, k, len0) == (rest.0, [e] + rest.1);
        assert visited + ([e] + rest.1) == (visited + [e]) + rest.1;
        list := list';
        visited := visited + [e];
      }
      k := k + 1;
    }
    assert visited + SpliceWalk(list, alive, k, len0).1 == visited + [] == visited;
  }

  /** With no inactive enemy the pass removes nothing and visits every enemy
      once, in list order. */
  lemma {:induction false} SpliceWalkAllAlive(list: seq<nat>, alive: seq<bool>, k: nat)
    requires k <= |list|
    requires forall i :: 0 <= i < |list| ==> !Dead(alive, list[i])
    ensures SpliceWalk(list, alive, k, |list|) == (list, list[k..])
    decreases |list| - k
  {
    if k < |list| {
      SpliceWalkAllAlive(list, alive, k + 1);
      assert list[k..] == [list[k]] + list[k + 1..];
    }
  }

  /** With the enemy at the front inactive and the next one active, the pass
      as written runs the logic of the removed enemy and never reaches the
      active one, which slid into the index already visited. */
  lemma SpliceSkipsTheNextEnemy()
    ensures SpliceWalk(Ids(2), [false, true], 0, 2) == ([1], [0])
  {
    var ids := Ids(2);
    assert ids == [0, 1];
    assert Dead([false, true], 0);
    assert ids[..0] + ids[1..] == [1];
    assert SpliceWalk([1], [false, true], 1, 2) == SpliceWalk([1], [false, true], 2, 2) == ([1], []);
    var visited: seq<nat> := [0];
    assert SpliceWalk(ids, [false, true], 0, 2) == ([1], visited + []);
    assert visited + [] == visited;
  }

  /** The enemy at index k is in `visited`, and every later enemy is in
      `visited` or sits just behind one that is in `visited` and inactive. */
  ghost predicate SkippedOnlyAfterASplice(list: seq<nat>, alive: seq<bool>, k: nat, visited: seq<nat>)
  {
    (k < |list| ==> list[k] in visited) &&
    forall i, j :: k <= i < j < |list| && j == i + 1 ==>
      list[j] in visited || (list[i] in visited && Dead(alive, list[i]))
  }

  /** The pass as written misses an enemy only right after a splice: it
      visits the enemy at index k, and every later enemy it never visits sits
      just behind one that it visited and spliced out. */
  lemma {:induction false} SpliceWalkSkipsOnlyAfterASplice(list: seq<nat>, alive: seq<bool>, k: nat, len0: nat)
    requires |list| <= len0
    ensures SkippedOnlyAfterASplice(list, alive, k, SpliceWalk(list, alive, k, len0).1)
    decreases len0 - k
  {
    if k < |list| {
      var e := list[k];
      var list' := if Dead(alive, e) then list[..k] + list[k + 1..] else list;
      var rest := SpliceWalk(list', alive, k + 1, len0).1;
      assert SpliceWalk(list, alive, k, len0).1 == [e] + rest;
      SpliceWalkSkipsOnlyAfterASplice(list', alive, k + 1, len0);
      SkipStep(list, alive, k, rest);
    }
  }

  /** One step of the pass keeps SkippedOnlyAfterASplice: visiting list[k]
      and, when it is inactive, splicing it out. */
  lemma SkipStep(list: seq<nat>, alive: seq<bool>, k: nat, rest: seq<nat>)
    requires k < |list|
    requires var list' := if Dead(alive, list[k]) then list[..k] + list[k + 1..] else list;
             SkippedOnlyAfterASplice(list', alive, k + 1, rest)
    ensures SkippedOnlyAfterASplice(list, alive, k, [list[k]] + rest)
  {
    var e := list[k];
    var visited := [e] + rest;
    var list' := if Dead(alive, e) then list[..k] + list[k + 1..] else list;
    assert list[k] == visited[0];
    forall i, j | k <= i < j < |list| && j == i + 1
      ensures list[j] in visited || (list[i] in visited && Dead(alive, list[i]))
    {
      if Dead(alive, e) {
        if i == k {
          assert list[i] == visited[0];
        } else if i == k + 1 {
          assert list[j] == list'[k + 1];
        } else {
          assert list[i] == list'[i - 1] && list[j] == list'[i];
        }
      } else if i == k {
        assert list[j] == list'[k + 1];
      }
    }
  }

  /** The pass as written removes exactly the inactive enemies it visits: an
      enemy stays in the list unless the pass reached it while it was inactive,
      and nothing new enters the list. */
  lemma {:induction false} SpliceWalkRemovesTheVisitedDead(list: seq<nat>, alive: seq<bool>, k: nat, len0: nat)
    requires forall i, j :: 0 <= i < j < |list| ==> list[i] != list[j]
    ensures var (rest, visited) := SpliceWalk(list, alive, k, len0);
            (forall e :: e in rest ==> e in list) &&
            (forall e :: e in list ==> (e in rest <==> !(e in visited && Dead(alive, e))))
    decreases len0 - k
  {
    if k >= len0 {
    } else if k >= |list| {
      SpliceWalkRemovesTheVisitedDead(list, alive, k + 1, len0);
    } else {
      var e := list[k];
      if Dead(alive, e) {
        SplicedOut(list, k);
        SpliceWalkRemovesTheVisitedDead(list[..k] + list[k + 1..], alive, k + 1, len0);
      } else {
        SpliceWalkRemovesTheVisitedDead(list, alive, k + 1, len0);
      }
    }
  }

  /** The pass only moves forward: it visits elements of the list only, and
      none of those before index k. */
  lemma {:induction false} SpliceWalkVisitsForward(list: seq<nat>, alive: seq<bool>, k: nat, len0: nat)
    requires forall i, j :: 0 <= i < j < |list| ==> list[i] != list[j]
    ensures var visited := SpliceWalk(list, alive, k, len0).1;
            (forall x :: x in visited ==> x in list) &&
            (forall m :: 0 <= m < k && m < |list| ==> list[m] !in visited)
    decreases len0 - k
  {
    if k >= len0 {
    } else if k >= |list| {
      SpliceWalkVisitsForward(list, alive, k + 1, len0);
    } else {
      var e := list[k];
      var list' := if Dead(alive, e) then list[..k] + list[k + 1..] else list;
      var rest := SpliceWalk(list', alive, k + 1, len0).1;
      assert SpliceWalk(list, alive, k, len0).1 == [e] + rest;
      if Dead(alive, e) {
        SplicedOut(list, k);
        SpliceWalkVisitsForward(list', alive, k + 1, len0);
        forall m | 0 <= m < k ensures list[m] !in [e] + rest {
          assert list[m] == list'[m];
        }
      } else {
        SpliceWalkVisitsForward(list, alive, k + 1, len0);
      }
    }
  }

  /** An enemy that sits just behind one the pass visited while inactive is
      never visited: the splice slides it into the index already passed. */
  ghost predicate SlidInNeverVisited(list: seq<nat>, alive: seq<bool>, k: nat, visited: seq<nat>)
  {
    forall i, j :: k <= i < j < |list| && j == i + 1 && list[i] in visited && Dead(alive, list[i]) ==>
      list[j] !in visited
  }

  /** On a list without repeats, the pass as written never visits the enemy
      that slides into the place of one it spliced out. */
  lemma {:induction false} SpliceWalkMissesTheSlidIn(list: seq<nat>, alive: seq<bool>, k: nat, len0: nat)
    requires forall i, j :: 0 <= i < j < |list| ==> list[i] != list[j]
    ensures SlidInNeverVisited(list, alive, k, SpliceWalk(list, alive, k, len0).1)
    decreases len0 - k
  {
    if k < len0 && k < |list| {
      var e := list[k];
      var list' := if Dead(alive, e) then list[..k] + list[k + 1..] else list;
      var rest := SpliceWalk(list', alive, k + 1, len0).1;
      assert SpliceWalk(list, alive, k, len0).1 == [e] + rest;
      if Dead(alive, e) {
        SplicedOut(list, k);
      }
      SpliceWalkMissesTheSlidIn(list', alive, k + 1, len0);
      SpliceWalkVisitsForward(list', alive, k + 1, len0);
      SlideStep(list, alive, k, rest);
    }
  }

  /** One step of the pass keeps SlidInNeverVisited, given that the rest of
      the pass visits only elements of the list from index k + 1 on. */
  lemma SlideStep(list: seq<nat>, alive: seq<bool>, k: nat, rest: seq<nat>)
    requires k < |list|
    requires forall i, j :: 0 <= i < j < |list| ==> list[i] != list[j]
    requires var list' := if Dead(alive, list[k]) then list[..k] + list[k + 1..] else list;
             SlidInNeverVisited(list', alive, k + 1, rest) &&
             (forall x :: x in rest ==> x in list') &&
             (forall m :: 0 <= m < k + 1 && m < |list'| ==> list'[m] !in rest)
    ensures SlidInNeverVisited(list, alive, k, [list[k]] + rest)
  {
    var e := list[k];
    var visited := [e] + rest;
    var list' := if Dead(alive, e) then list[..k] + list[k + 1..] else list;
    forall i, j | k <= i < j < |list| && j == i + 1 && list[i] in visited && Dead(alive, list[i])
      ensures list[j] !in visited
    {
      assert list[j] != list[k];
      if Dead(alive, e) {
        if i == k {
          assert list[j] == list'[k];
        } else {
          assert list[i] != list[k];
          assert list[i] == list'[i - 1] && list[j] == list'[i];
        }
      } else {
        assert list[i] != list[k];
      }
    }
  }

  /** The whole pass as written over enemies 0 .. n-1: it removes exactly the
      inactive enemies it visits, it visits enemy 0, and it misses an enemy
      exactly when the enemy just before it was visited while inactive and
      spliced out. */
  lemma SpliceWalkOutcome(alive: seq<bool>)
    ensures var n := |alive|;
            var (list, visited) := SpliceWalk(Ids(n), alive, 0, n);
            (forall e :: e in list ==> e < n) &&
            (forall e: nat :: e < n ==> (e in list <==> !(e in visited && !alive[e]))) &&
            (0 < n ==> 0 in visited) &&
            (forall e: nat :: 0 < e < n ==> (e !in visited <==> e - 1 in visited && !alive[e - 1]))
  {
    var n := |alive|;
    var ids := Ids(n);
    var (list, visited) := SpliceWalk(ids, alive, 0, n);
    SpliceWalkRemovesTheVisitedDead(ids, alive, 0, n);
    SpliceWalkSkipsOnlyAfterASplice(ids, alive, 0, n);
    SpliceWalkMissesTheSlidIn(ids, alive, 0, n);
    forall e | e in list ensures e < n {
      var i :| 0 <= i < n && ids[i] == e;
    }
    forall e: nat | e < n ensures e in list <==> !(e in visited && !alive[e]) {
      assert ids[e] == e;
    }
    forall e: nat | 0 < e < n ensures e !in visited <==> e - 1 in visited && !alive[e - 1] {
      assert ids[e - 1] == e - 1 && ids[e] == e;
    }
    if 0 < n {
      assert ids[0] == 0;
    }
  }

  /** Splicing index k out of a list without repeats leaves a list without
      repeats that holds every other element and not list[k]. */
  lemma SplicedOut(list: seq<nat>, k: nat)
    requires k < |list|
    requires forall i, j :: 0 <= i < j < |list| ==> list[i] != list[j]
    ensures var list' := list[..k] + list[k + 1..];
            (forall i, j :: 0 <= i < j < |list'| ==> list'[i] != list'[j]) &&
            (forall x :: x in list' <==> x in list && x != list[k])
  {
    var list' := list[..k] + list[k + 1..];
    forall i, j | 0 <= i < j < |list'| ensures list'[i] != list'[j] {
      var i0 := if i < k then i else i + 1;
      var j0 := if j < k then j else j + 1;
      assert list'[i] == list[i0] && list'[j] == list[j0];
    }
    forall x | x in list ensures x in list' <==> x != list[k] {
      var i :| 0 <= i < |list| && list[i] == x;
      if i < k { assert list'[i] == x; } else if i > k { assert list'[i - 1] == x; }
    }
  }

  /** The active enemies, in list order: the list the pass is evidently meant
      to leave, and the enemies whose logic it is meant to run. There are at
      most n of them. */
  function Live(alive: seq<bool>, n: nat): (r: seq<nat>)
    requires n <= |alive|
    ensures |r| <= n
  {
    if n == 0 then [] else Live(alive, n - 1) + if alive[n - 1] then [n - 1] else []
  }

  /** Live holds exactly the active enemies among the first n, each once and
      in list order. */
  lemma {:induction false} LiveIsTheActiveEnemies(alive: seq<bool>, n: nat)
    requires n <= |alive|
    ensures forall e: nat :: e in Live(alive, n) <==> e < n && alive[e]
    ensures forall i, j :: 0 <= i < j < |Live(alive, n)| ==> Live(alive, n)[i] < Live(alive, n)[j]
    ensures forall i :: 0 <= i < |Live(alive, n)| ==> Live(alive, n)[i] < n
  {
    if n > 0 {
      LiveIsTheActiveEnemies(alive, n - 1);
    }
  }

  /** The corrected pass: an index loop that removes an inactive enemy without
      advancing past the one that slides into its place, and runs the logic
      of the enemies it keeps. */
  method Compact(alive: seq<bool>) returns (list: seq<nat>, visited: seq<nat>)
    ensures list == Live(alive, |alive|)
    ensures visited == list
  {
    list := Ids(|alive|);
    visited := [];
    var k := 0;
    ghost var m := 0;
    while k < |list|
      invariant k <= |list| && m <= |alive|
      invariant list[..k] == visited == Live(alive, m)
      invariant list[k..] == Ids(|alive|)[m..]
      decreases |list| - k
    {
      var e := list[k];
      assert list[k..] == [e] + list[k + 1..];
      assert Ids(|alive|)[m..] == [m] + Ids(|alive|)[m + 1..];
      if Dead(alive, e) {
        assert Live(alive, m + 1) == Live(alive, m);
        list := list[..k] + list[k + 1..];
      } else {
        assert Live(alive, m + 1) == Live(alive, m) + [m];
        assert list[..k + 1] == list[..k] + [e];
        visited := visited + [e];
        k := k + 1;
      }
      m := m + 1;
    }
    assert list[k..] == [];
  }

  /** Every enemy active: the list of active enemies is the whole list. */
  lemma {:induction false} LiveAllAlive(alive: seq<bool>, n: nat)
    requires n <= |alive|
    requires forall i :: 0 <= i < |alive| ==> alive[i]
    ensures Live(alive, n) == Ids(n)
  {
    if n > 0 {
      LiveAllAlive(alive, n - 1);
    }
  }

  /** When no enemy is inactive the pass as written agrees with the corrected
      one: it keeps the whole list and visits each enemy once. */
  lemma SpliceWalkAgreesWhenAllAlive(alive: seq<bool>)
    requires forall i :: 0 <= i < |alive| ==> alive[i]
    ensures SpliceWalk(Ids(|alive|), alive, 0, |alive|) == (Live(alive, |alive|), Live(alive, |alive|))
  {
    LiveAllAlive(alive, |alive|);
    SpliceWalkAllAlive(Ids(|alive|), alive, 0);
    assert Ids(|alive|)[0..] == Ids(|alive|);
  }
}
