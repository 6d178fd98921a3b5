/** The choice list ("games") of a room: how each client turns the `games`
    subtree into the ordered list it draws, and the name checks `addGame`
    makes against that list. */
module ChoiceList {
  import opened JsText
  import opened Snapshot

  /** A child of `rooms/<code>/games`, as `addGame` writes it. */
  datatype GameEntry = GameEntry(name: string, addedBy: string, timestamp: int)

  /** An element of the client's `games` list: the push key and two fields
      of the stored entry (the timestamp is dropped). */
  datatype Game = Game(id: string, name: string, addedBy: string)

  function GameOf(p: Entry<GameEntry>): Game {
    Game(p.0, p.1.name, p.1.addedBy)
  }

  /** Ascending by key, with no key twice. */
  predicate SortedByKey(s: seq<Entry<GameEntry>>) {
    forall i, j :: 0 <= i < j < |s| ==> KeyLess(s[i].0, s[j].0)
  }

  lemma SortedCons(x: Entry<GameEntry>, s: seq<Entry<GameEntry>>)
    requires SortedByKey(s)
    requires s != [] ==> KeyLess(x.0, s[0].0)
    ensures SortedByKey([x] + s)
  {
    var r := [x] + s;
    forall i, j | 0 <= i < j < |r|
      ensures KeyLess(r[i].0, r[j].0)
    {
      if i == 0 && j > 1 {
        KeyLessTransitive(x.0, s[0].0, s[j - 1].0);
      }
    }
  }

  /** One step of the sort: puts `x` in its place in a sorted list. */
  function Insert(x: Entry<GameEntry>, s: seq<Entry<GameEntry>>): (r: seq<Entry<GameEntry>>)
    requires SortedByKey(s)
    requires forall p :: p in s ==> p.0 != x.0
    ensures multiset(r) == multiset(s) + multiset{x}
    ensures SortedByKey(r)
  {
    if s == [] then [x]
    else if KeyLess(x.0, s[0].0) then
      SortedCons(x, s);
      [x] + s
    else
      KeyLessTotal(x.0, s[0].0);
      assert s == [s[0]] + s[1..];
      var rest := Insert(x, s[1..]);
      assert rest[0] in multiset(rest);
      assert rest[0] == x || rest[0] in s[1..];
      SortedCons(s[0], rest);
      [s[0]] + rest
  }

  lemma TailKeysDistinct(e: seq<Entry<GameEntry>>)
    requires KeysDistinct(e) && e != []
    ensures KeysDistinct(e[1..])
    ensures forall p :: p in e[1..] ==> p.0 != e[0].0
  {
  }

  lemma KeyAbsentFromPermutation(x: Entry<GameEntry>, a: seq<Entry<GameEntry>>, b: seq<Entry<GameEntry>>)
    requires multiset(a) == multiset(b)
    requires forall p :: p in a ==> p.0 != x.0
    ensures forall p :: p in b ==> p.0 != x.0
  {
    forall p | p in b
      ensures p.0 != x.0
    {
      assert p in multiset(b);
    }
  }

  lemma MultisetOfCons(e: seq<Entry<GameEntry>>)
    requires e != []
    ensures multiset(e) == multiset(e[1..]) + multiset{e[0]}
  {
    assert e == [e[0]] + e[1..];
  }

  /** The `sort` by push key in the `games` listener, as an insertion sort. */
  function SortByKey(e: seq<Entry<GameEntry>>): (r: seq<Entry<GameEntry>>)
    requires KeysDistinct(e)
    ensures multiset(r) == multiset(e)
    ensures SortedByKey(r)
  {
    if e == [] then []
    else
      TailKeysDistinct(e);
      var rest := SortByKey(e[1..]);
      KeyAbsentFromPermutation(e[0], e[1..], rest);
      MultisetOfCons(e);
      Insert(e[0], rest)
  }

  /** The list element for each sorted child, in order. */
  function ToGames(s: seq<Entry<GameEntry>>): (r: seq<Game>)
    ensures |r| == |s|
    ensures forall i :: 0 <= i < |s| ==> r[i] == GameOf(s[i])
  {
    seq(|s|, i requires 0 <= i < |s| => GameOf(s[i]))
  }

  /** The `games` listener: the snapshot's children sorted ascending by push
      key. Every child appears exactly once, and nothing else appears. */
  function GamesFromSnapshot(e: seq<Entry<GameEntry>>): (r: seq<Game>)
    requires KeysDistinct(e)
    ensures |r| == |e|
    ensures forall i, j :: 0 <= i < j < |r| ==> KeyLess(r[i].id, r[j].id)
    ensures forall p :: p in e ==> GameOf(p) in r
    ensures forall i :: 0 <= i < |r| ==> exists p :: p in e && r[i] == GameOf(p)
  {
    var s := SortByKey(e);
    assert forall p :: p in e <==> p in multiset(s);
    assert forall i :: 0 <= i < |s| ==> s[i] in multiset(e);
    ToGames(s)
  }

  /** In a list sorted by key, the head comes before every other element. */
  lemma HeadComesFirst(a: seq<Entry<GameEntry>>, x: Entry<GameEntry>)
    requires SortedByKey(a) && x in a
    ensures x == a[0] || KeyLess(a[0].0, x.0)
  {
    var k :| 0 <= k < |a| && a[k] == x;
  }

  lemma SameTails(a: seq<Entry<GameEntry>>, b: seq<Entry<GameEntry>>)
    requires a != [] && b != [] && a[0] == b[0]
    requires multiset(a) == multiset(b)
    ensures multiset(a[1..]) == multiset(b[1..])
  {
    MultisetOfCons(a);
    MultisetOfCons(b);
    assert multiset(a[1..]) == multiset(a) - multiset{a[0]};
  }

  /** Two lists sorted by key that hold the same entries are the same list. */
  lemma {:induction false} SortedUnique(a: seq<Entry<GameEntry>>, b: seq<Entry<GameEntry>>)
    requires SortedByKey(a) && SortedByKey(b)
    requires multiset(a) == multiset(b)
    ensures a == b
  {
    if a == [] {
      assert |multiset(b)| == 0;
    } else {
      assert a[0] in multiset(b) && b[0] in multiset(a);
      HeadComesFirst(b, a[0]);
      HeadComesFirst(a, b[0]);
      assert a[0] == b[0] by {
        if a[0] != b[0] {
          KeyLessAsymmetric(a[0].0, b[0].0);
        }
      }
      SameTails(a, b);
      SortedUnique(a[1..], b[1..]);
      assert a == [a[0]] + a[1..] && b == [b[0]] + b[1..];
    }
  }

  /** Convergence: clients that hold the same snapshot build the same list,
      whatever order the children were enumerated or arrived in. */
  lemma SnapshotConverges(e1: seq<Entry<GameEntry>>, e2: seq<Entry<GameEntry>>)
    requires KeysDistinct(e1) && KeysDistinct(e2)
    requires SameSnapshot(e1, e2)
    ensures GamesFromSnapshot(e1) == GamesFromSnapshot(e2)
  {
    SortedUnique(SortByKey(e1), SortByKey(e2));
  }

  lemma AppendGreatestKeepsDistinct(e: seq<Entry<GameEntry>>, x: Entry<GameEntry>)
    requires KeysDistinct(e)
    requires forall p :: p in e ==> KeyLess(p.0, x.0)
    ensures KeysDistinct(e + [x])
  {
    forall i, j | 0 <= i < j < |e + [x]|
      ensures (e + [x])[i].0 != (e + [x])[j].0
    {
      if j == |e| {
        assert (e + [x])[i] in e;
        KeyLessIrreflexive(x.0);
      }
    }
  }

  lemma AppendGreatestKeepsSorted(s: seq<Entry<GameEntry>>, x: Entry<GameEntry>)
    requires SortedByKey(s)
    requires forall p :: p in s ==> KeyLess(p.0, x.0)
    ensures SortedByKey(s + [x])
  {
    var t := s + [x];
    forall i, j | 0 <= i < j < |t|
      ensures KeyLess(t[i].0, t[j].0)
    {
      if j == |s| {
        assert t[i] in s;
      }
    }
  }

  /** A child whose push key is greater than every key already present (the
      store's keys grow with insertion time) goes to the end of the list and
      leaves the rest in place: the list is append-only. */
  lemma NewestEntryGoesLast(e: seq<Entry<GameEntry>>, x: Entry<GameEntry>)
    requires KeysDistinct(e)
    requires forall p :: p in e ==> KeyLess(p.0, x.0)
    ensures KeysDistinct(e + [x])
    ensures GamesFromSnapshot(e + [x]) == GamesFromSnapshot(e) + [GameOf(x)]
  {
    AppendGreatestKeepsDistinct(e, x);
    var s := SortByKey(e);
    forall p | p in s
      ensures KeyLess(p.0, x.0)
    {
      assert p in multiset(e);
    }
    AppendGreatestKeepsSorted(s, x);
    assert multiset(s + [x]) == multiset(e + [x]);
    SortedUnique(SortByKey(e + [x]), s + [x]);
    assert ToGames(s + [x]) == ToGames(s) + [GameOf(x)];
  }

  /** The duplicate guard of `addGame`: some game already on the list has
      this name, ignoring case. */
  predicate HasNameIgnoringCase(games: seq<Game>, name: string) {
    exists i :: 0 <= i < |games| && SameIgnoringCase(games[i].name, name)
  }
}
