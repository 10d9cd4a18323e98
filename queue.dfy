/** The queue discipline of the store: songs are kept in descending order of
    votes by a stable sort, and a vote maps the target song and re-sorts. */
module Queue {
  import opened Songs

  /** Descending by votes. */
  predicate Sorted(q: seq<Song>)
  {
    forall i, j :: 0 <= i < j < |q| ==> q[i].votes >= q[j].votes
  }

  /** Inserts `x` after every leading song that has at least its votes. */
  function InsertByVotes(x: Song, q: seq<Song>): (r: seq<Song>)
    ensures |r| == |q| + 1
  {
    if q == [] then [x]
    else if q[0].votes >= x.votes then [q[0]] + InsertByVotes(x, q[1..])
    else [x] + q
  }

  /** Insertion adds exactly the new song. */
  lemma {:induction false} InsertPermutes(x: Song, q: seq<Song>)
    ensures multiset(InsertByVotes(x, q)) == multiset(q) + multiset{x}
  {
    if q != [] && q[0].votes >= x.votes {
      InsertPermutes(x, q[1..]);
      assert q == [q[0]] + q[1..];
    }
  }

  /** Inserting into a sorted queue keeps it sorted. */
  lemma {:induction false} InsertSorted(x: Song, q: seq<Song>)
    requires Sorted(q)
    ensures Sorted(InsertByVotes(x, q))
  {
    if q != [] && q[0].votes >= x.votes {
      var rest := InsertByVotes(x, q[1..]);
      SortedTail(q);
      InsertSorted(x, q[1..]);
      InsertPermutes(x, q[1..]);
      forall k | 0 <= k < |rest| ensures rest[k].votes <= q[0].votes {
        assert rest[k] in multiset(rest);
      }
      SortedCons(q[0], rest);
    } else if q != [] {
      SortedCons(x, q);
    }
  }

  /** A song with at least the votes of every song of a sorted queue can go
      in front of it. */
  lemma {:induction false} SortedCons(h: Song, q: seq<Song>)
    requires Sorted(q) && forall k :: 0 <= k < |q| ==> q[k].votes <= h.votes
    ensures Sorted([h] + q)
  {
    var r := [h] + q;
    forall i, j | 0 <= i < j < |r| ensures r[i].votes >= r[j].votes {
      assert r[j] == q[j - 1];
      if i > 0 {
        assert r[i] == q[i - 1];
      }
    }
  }

  /** `[...q].sort((a, b) => b.votes - a.votes)`: an insertion sort that
      inserts each song, in queue order, after the equal-voted ones before it. */
  function SortByVotes(q: seq<Song>): (r: seq<Song>)
    ensures |r| == |q|
  {
    if q == [] then [] else InsertByVotes(q[|q| - 1], SortByVotes(q[..|q| - 1]))
  }

  /** The sorted queue is in descending order of votes and holds exactly the
      songs of the input. */
  lemma {:induction false} SortSpec(q: seq<Song>)
    ensures Sorted(SortByVotes(q))
    ensures multiset(SortByVotes(q)) == multiset(q)
  {
    SortSorted(q);
    SortPermutes(q);
  }

  lemma {:induction false} SortSorted(q: seq<Song>)
    ensures Sorted(SortByVotes(q))
  {
    if q != [] {
      var init := q[..|q| - 1];
      SortSorted(init);
      InsertSorted(q[|q| - 1], SortByVotes(init));
    }
  }

  lemma {:induction false} SortPermutes(q: seq<Song>)
    ensures multiset(SortByVotes(q)) == multiset(q)
  {
    if q != [] {
      var init := q[..|q| - 1];
      SortPermutes(init);
      InsertPermutes(q[|q| - 1], SortByVotes(init));
      MultisetLast(q);
    }
  }

  lemma {:induction false} MultisetLast(q: seq<Song>)
    requires q != []
    ensures multiset(q) == multiset(q[..|q| - 1]) + multiset{q[|q| - 1]}
  {
    assert q == q[..|q| - 1] + [q[|q| - 1]];
  }

  /** Sorting a queue with one more song at the end inserts that song into
      the sorted queue. */
  lemma {:induction false} SortAppend(q: seq<Song>, x: Song)
    ensures SortByVotes(q + [x]) == InsertByVotes(x, SortByVotes(q))
  {
    assert (q + [x])[..|q|] == q;
  }

  /** A song no better than every song of a queue goes to its end. */
  lemma {:induction false} InsertAfterAll(x: Song, q: seq<Song>)
    requires forall k :: 0 <= k < |q| ==> q[k].votes >= x.votes
    ensures InsertByVotes(x, q) == q + [x]
  {
    if q != [] {
      InsertAfterAll(x, q[1..]);
      assert q == [q[0]] + q[1..];
    }
  }

  /** Sorting an already sorted queue changes nothing. */
  lemma {:induction false} SortSortedIdentity(q: seq<Song>)
    requires Sorted(q)
    ensures SortByVotes(q) == q
  {
    if q != [] {
      var init, last := q[..|q| - 1], q[|q| - 1];
      assert Sorted(init);
      SortSortedIdentity(init);
      assert SortByVotes(q) == InsertByVotes(last, init);
      assert forall k :: 0 <= k < |init| ==> init[k].votes >= last.votes;
      InsertAfterAll(last, init);
      assert q == init + [last];
    }
  }

  /** Into a sorted queue a song goes right after every song with at least
      its votes and right before every song with fewer. */
  lemma {:induction false} InsertPosition(x: Song, q: seq<Song>) returns (k: nat)
    requires Sorted(q)
    ensures k <= |q| && InsertByVotes(x, q) == q[..k] + [x] + q[k..]
    ensures forall i :: 0 <= i < k ==> q[i].votes >= x.votes
    ensures forall i :: k <= i < |q| ==> q[i].votes < x.votes
  {
    if q != [] && q[0].votes >= x.votes {
      SortedTail(q);
      var k' := InsertPosition(x, q[1..]);
      InsertPositionBehind(x, q, k');
      k := k' + 1;
    } else {
      k := 0;
      if q != [] {
        assert forall i :: 0 <= i < |q| ==> q[i].votes <= q[0].votes;
      }
    }
  }

  lemma {:induction false} InsertPositionBehind(x: Song, q: seq<Song>, k: nat)
    requires q != [] && q[0].votes >= x.votes && k <= |q| - 1
    requires InsertByVotes(x, q[1..]) == q[1..][..k] + [x] + q[1..][k..]
    requires forall i :: 0 <= i < k ==> q[1..][i].votes >= x.votes
    requires forall i :: k <= i < |q| - 1 ==> q[1..][i].votes < x.votes
    ensures InsertByVotes(x, q) == q[..k + 1] + [x] + q[k + 1..]
    ensures forall i :: 0 <= i < k + 1 ==> q[i].votes >= x.votes
    ensures forall i :: k + 1 <= i < |q| ==> q[i].votes < x.votes
  {
    assert q[..k + 1] == [q[0]] + q[1..][..k];
    assert q[k + 1..] == q[1..][k..];
    forall i | 1 <= i < |q| ensures q[i] == q[1..][i - 1] {
    }
  }

  /** The songs of a queue that have exactly `v` votes, in queue order. */
  function WithVotes(q: seq<Song>, v: int): seq<Song>
  {
    if q == [] then []
    else (if q[0].votes == v then [q[0]] else []) + WithVotes(q[1..], v)
  }

  lemma {:induction false} WithVotesAppend(a: seq<Song>, b: seq<Song>, v: int)
    ensures WithVotes(a + b, v) == WithVotes(a, v) + WithVotes(b, v)
  {
    if a == [] {
      assert a + b == b;
    } else {
      WithVotesAppend(a[1..], b, v);
      ConsAppend(a, b);
      WithVotesCons(a[0], a[1..] + b, v);
      WithVotesHead(a, v);
      ConcatAssoc(WithVotes([a[0]], v), WithVotes(a[1..], v), WithVotes(b, v));
    }
  }

  lemma {:induction false} ConsAppend<T>(a: seq<T>, b: seq<T>)
    requires a != []
    ensures a + b == [a[0]] + (a[1..] + b)
  {
  }

  lemma {:induction false} ConcatAssoc<T>(a: seq<T>, b: seq<T>, c: seq<T>)
    ensures (a + b) + c == a + (b + c)
  {
  }

  lemma {:induction false} WithVotesNone(q: seq<Song>, v: int)
    requires forall k :: 0 <= k < |q| ==> q[k].votes != v
    ensures WithVotes(q, v) == []
  {
    if q != [] {
      WithVotesNone(q[1..], v);
    }
  }

  lemma {:induction false} WithVotesCons(h: Song, q: seq<Song>, v: int)
    ensures WithVotes([h] + q, v) == WithVotes([h], v) + WithVotes(q, v)
  {
    assert ([h] + q)[1..] == q;
    assert [h][1..] == [];
  }

  lemma {:induction false} SortedTail(q: seq<Song>)
    requires Sorted(q) && q != []
    ensures Sorted(q[1..])
  {
    forall i, j | 0 <= i < j < |q[1..]| ensures q[1..][i].votes >= q[1..][j].votes {
      assert q[1..][i] == q[i + 1] && q[1..][j] == q[j + 1];
    }
  }

  lemma {:induction false} WithVotesHead(q: seq<Song>, v: int)
    requires q != []
    ensures WithVotes(q, v) == WithVotes([q[0]], v) + WithVotes(q[1..], v)
  {
    assert [q[0]][1..] == [];
  }

  /** Insertion puts the new song after every song with the same votes. */
  lemma {:induction false} InsertStable(x: Song, q: seq<Song>, v: int)
    requires Sorted(q)
    ensures WithVotes(InsertByVotes(x, q), v) == WithVotes(q, v) + WithVotes([x], v)
  {
    if q != [] && q[0].votes >= x.votes {
      SortedTail(q);
      InsertStable(x, q[1..], v);
      InsertStableBehind(x, q, v);
    } else if q != [] {
      InsertStableFront(x, q, v);
    }
  }

  lemma {:induction false} InsertStableBehind(x: Song, q: seq<Song>, v: int)
    requires q != [] && q[0].votes >= x.votes
    requires WithVotes(InsertByVotes(x, q[1..]), v) == WithVotes(q[1..], v) + WithVotes([x], v)
    ensures WithVotes(InsertByVotes(x, q), v) == WithVotes(q, v) + WithVotes([x], v)
  {
    WithVotesCons(q[0], InsertByVotes(x, q[1..]), v);
    WithVotesHead(q, v);
  }

  lemma {:induction false} InsertStableFront(x: Song, q: seq<Song>, v: int)
    requires Sorted(q) && q != [] && q[0].votes < x.votes
    ensures WithVotes(InsertByVotes(x, q), v) == WithVotes(q, v) + WithVotes([x], v)
  {
    WithVotesCons(x, q, v);
    if v == x.votes {
      assert forall k :: 0 <= k < |q| ==> q[k].votes <= q[0].votes;
      WithVotesNone(q, v);
    }
  }

  /** The sort is stable: for every vote count, the songs with that count
      keep their relative order. */
  lemma {:induction false} SortStable(q: seq<Song>, v: int)
    ensures WithVotes(SortByVotes(q), v) == WithVotes(q, v)
  {
    if q != [] {
      var init, last := q[..|q| - 1], q[|q| - 1];
      SortStable(init, v);
      SortSorted(init);
      InsertStable(last, SortByVotes(init), v);
      WithVotesLast(q, v);
    }
  }

  lemma {:induction false} WithVotesLast(q: seq<Song>, v: int)
    requires q != []
    ensures WithVotes(q, v) == WithVotes(q[..|q| - 1], v) + WithVotes([q[|q| - 1]], v)
  {
    assert q == q[..|q| - 1] + [q[|q| - 1]];
    WithVotesAppend(q[..|q| - 1], [q[|q| - 1]], v);
  }

  /** Adding a song to a sorted queue places it after every song with at
      least its votes, before every song with fewer, and moves nothing else;
      a new one-vote song therefore lands behind every song with a vote. */
  lemma {:induction false} AddToSorted(q: seq<Song>, x: Song) returns (k: nat)
    requires Sorted(q)
    ensures k <= |q| && SortByVotes(q + [x]) == q[..k] + [x] + q[k..]
    ensures forall i :: 0 <= i < k ==> q[i].votes >= x.votes
    ensures forall i :: k <= i < |q| ==> q[i].votes < x.votes
  {
    SortAppend(q, x);
    SortSortedIdentity(q);
    k := InsertPosition(x, q);
  }

  /** The ids of a queue, in order. */
  function IdsOf(q: seq<Song>): (ids: seq<string>)
    ensures |ids| == |q| && forall k :: 0 <= k < |q| ==> ids[k] == q[k].id
  {
    if q == [] then [] else [q[0].id] + IdsOf(q[1..])
  }

  /** No two songs of the queue share an id. */
  ghost predicate UniqueIds(q: seq<Song>)
  {
    forall id :: multiset(IdsOf(q))[id] <= 1
  }

  lemma {:induction false} InsertIds(x: Song, q: seq<Song>)
    ensures multiset(IdsOf(InsertByVotes(x, q))) == multiset(IdsOf(q)) + multiset{x.id}
  {
    if q != [] && q[0].votes >= x.votes {
      var rest := InsertByVotes(x, q[1..]);
      InsertIds(x, q[1..]);
      assert InsertByVotes(x, q) == [q[0]] + rest;
      IdsCons(q[0], rest);
      IdsHead(q);
    } else if q == [] {
      assert InsertByVotes(x, q) == [x];
      assert IdsOf([x]) == [x.id];
    } else {
      assert InsertByVotes(x, q) == [x] + q;
      IdsCons(x, q);
    }
  }

  lemma {:induction false} IdsCons(h: Song, q: seq<Song>)
    ensures multiset(IdsOf([h] + q)) == multiset{h.id} + multiset(IdsOf(q))
  {
    assert ([h] + q)[1..] == q;
  }

  lemma {:induction false} IdsHead(q: seq<Song>)
    requires q != []
    ensures multiset(IdsOf(q)) == multiset{q[0].id} + multiset(IdsOf(q[1..]))
  {
  }

  /** Sorting keeps the multiset of ids. */
  lemma {:induction false} SortIds(q: seq<Song>)
    ensures multiset(IdsOf(SortByVotes(q))) == multiset(IdsOf(q))
  {
    if q != [] {
      var init, last := q[..|q| - 1], q[|q| - 1];
      SortIds(init);
      InsertIds(last, SortByVotes(init));
      assert SortByVotes(q) == InsertByVotes(last, SortByVotes(init));
      LastId(q);
    }
  }

  lemma {:induction false} LastId(q: seq<Song>)
    requires q != []
    ensures IdsOf(q) == IdsOf(q[..|q| - 1]) + [q[|q| - 1].id]
  {
    var ids, initIds := IdsOf(q), IdsOf(q[..|q| - 1]);
    assert forall k :: 0 <= k < |ids| ==> ids[k] == (initIds + [q[|q| - 1].id])[k];
  }

  /** The callback of `queue.map(...)` in `vote`: only the song with the
      target id gets the vote. */
  function VoteOn(song: Song, songId: string, user: string, dir: Direction): Song
  {
    if song.id == songId then ApplyVote(song, user, dir) else song
  }

  /** `queue.map(...)` in `vote`. */
  function MarkVote(q: seq<Song>, songId: string, user: string, dir: Direction): (r: seq<Song>)
    ensures |r| == |q|
  {
    if q == [] then []
    else [VoteOn(q[0], songId, user, dir)] + MarkVote(q[1..], songId, user, dir)
  }

  /** The map gives the songs with the target id the vote and keeps every
      other song as it is, in its place. */
  lemma {:induction false} MarkVoteSpec(q: seq<Song>, songId: string, user: string, dir: Direction)
    ensures var r := MarkVote(q, songId, user, dir);
            |r| == |q|
            && forall k :: 0 <= k < |q| ==>
                 r[k] == if q[k].id == songId then ApplyVote(q[k], user, dir) else q[k]
  {
    if q != [] {
      MarkVoteSpec(q[1..], songId, user, dir);
      var r := MarkVote(q, songId, user, dir);
      assert r == [VoteOn(q[0], songId, user, dir)] + MarkVote(q[1..], songId, user, dir);
      forall k | 1 <= k < |q| ensures r[k] == VoteOn(q[k], songId, user, dir) {
        assert q[k] == q[1..][k - 1];
      }
    }
  }

  lemma {:induction false} MarkCons(x: Song, q: seq<Song>, songId: string, user: string, dir: Direction)
    ensures multiset(MarkVote([x] + q, songId, user, dir))
            == multiset{VoteOn(x, songId, user, dir)} + multiset(MarkVote(q, songId, user, dir))
  {
    assert ([x] + q)[1..] == q;
  }

  lemma {:induction false} MarkAppend(a: seq<Song>, b: seq<Song>, songId: string, user: string, dir: Direction)
    ensures MarkVote(a + b, songId, user, dir) == MarkVote(a, songId, user, dir) + MarkVote(b, songId, user, dir)
  {
    var l, r := MarkVote(a + b, songId, user, dir), MarkVote(a, songId, user, dir) + MarkVote(b, songId, user, dir);
    MarkVoteSpec(a + b, songId, user, dir);
    MarkVoteSpec(a, songId, user, dir);
    MarkVoteSpec(b, songId, user, dir);
    assert forall k :: 0 <= k < |l| ==> l[k] == r[k];
  }

  /** Marking commutes with insertion, as far as the songs go. */
  lemma {:induction false} MarkInsert(x: Song, q: seq<Song>, songId: string, user: string, dir: Direction)
    ensures multiset(MarkVote(InsertByVotes(x, q), songId, user, dir))
            == multiset(MarkVote(q, songId, user, dir)) + multiset{VoteOn(x, songId, user, dir)}
  {
    var vx := VoteOn(x, songId, user, dir);
    if q == [] {
      MarkCons(x, [], songId, user, dir);
      assert InsertByVotes(x, q) == [x] + [];
    } else if q[0].votes >= x.votes {
      MarkInsert(x, q[1..], songId, user, dir);
      MarkInsertBehind(x, q, songId, user, dir);
    } else {
      assert InsertByVotes(x, q) == [x] + q;
      MarkCons(x, q, songId, user, dir);
    }
  }

  /** The step of MarkInsert where the new song goes behind the head. */
  lemma {:induction false} MarkInsertBehind(x: Song, q: seq<Song>, songId: string, user: string, dir: Direction)
    requires q != [] && q[0].votes >= x.votes
    requires multiset(MarkVote(InsertByVotes(x, q[1..]), songId, user, dir))
             == multiset(MarkVote(q[1..], songId, user, dir)) + multiset{VoteOn(x, songId, user, dir)}
    ensures multiset(MarkVote(InsertByVotes(x, q), songId, user, dir))
            == multiset(MarkVote(q, songId, user, dir)) + multiset{VoteOn(x, songId, user, dir)}
  {
    var rest := InsertByVotes(x, q[1..]);
    assert InsertByVotes(x, q) == [q[0]] + rest;
    var v0, vx := VoteOn(q[0], songId, user, dir), VoteOn(x, songId, user, dir);
    var a, b := multiset(MarkVote(InsertByVotes(x, q), songId, user, dir)), multiset(MarkVote(rest, songId, user, dir));
    var c, d := multiset(MarkVote(q, songId, user, dir)), multiset(MarkVote(q[1..], songId, user, dir));
    MarkCons(q[0], rest, songId, user, dir);
    assert a == multiset{v0} + b;
    MarkHead(q, songId, user, dir);
    assert c == multiset{v0} + d;
  }

  lemma {:induction false} MarkHead(q: seq<Song>, songId: string, user: string, dir: Direction)
    requires q != []
    ensures multiset(MarkVote(q, songId, user, dir))
            == multiset{VoteOn(q[0], songId, user, dir)} + multiset(MarkVote(q[1..], songId, user, dir))
  {
  }

  lemma {:induction false} MarkSort(q: seq<Song>, songId: string, user: string, dir: Direction)
    ensures multiset(MarkVote(SortByVotes(q), songId, user, dir)) == multiset(MarkVote(q, songId, user, dir))
  {
    if q != [] {
      var init, last := q[..|q| - 1], q[|q| - 1];
      MarkSort(init, songId, user, dir);
      assert SortByVotes(q) == InsertByVotes(last, SortByVotes(init));
      MarkInsert(last, SortByVotes(init), songId, user, dir);
      MarkLast(q, songId, user, dir);
    }
  }

  lemma {:induction false} MarkLast(q: seq<Song>, songId: string, user: string, dir: Direction)
    requires q != []
    ensures MarkVote(q, songId, user, dir)
            == MarkVote(q[..|q| - 1], songId, user, dir) + [VoteOn(q[|q| - 1], songId, user, dir)]
  {
    var l := MarkVote(q, songId, user, dir);
    var r := MarkVote(q[..|q| - 1], songId, user, dir) + [VoteOn(q[|q| - 1], songId, user, dir)];
    MarkVoteSpec(q, songId, user, dir);
    MarkVoteSpec(q[..|q| - 1], songId, user, dir);
    assert forall k :: 0 <= k < |l| ==> l[k] == r[k];
  }

  /** The new queue of `vote`: the marked queue, re-sorted. */
  function VoteQueue(q: seq<Song>, songId: string, user: string, dir: Direction): seq<Song>
  {
    SortByVotes(MarkVote(q, songId, user, dir))
  }

  /** Each song of the queue is well formed. */
  predicate AllWellFormed(q: seq<Song>)
  {
    forall k :: 0 <= k < |q| ==> WellFormed(q[k])
  }

  /** A vote yields a sorted permutation of the marked queue, keeps the ids
      and keeps every song well formed. */
  lemma {:induction false} VoteQueueSpec(q: seq<Song>, songId: string, user: string, dir: Direction)
    ensures var r := VoteQueue(q, songId, user, dir);
            Sorted(r) && multiset(r) == multiset(MarkVote(q, songId, user, dir))
            && multiset(IdsOf(r)) == multiset(IdsOf(q))
            && (AllWellFormed(q) ==> AllWellFormed(r))
  {
    var m := MarkVote(q, songId, user, dir);
    SortSpec(m);
    MarkIds(q, songId, user, dir);
    SortIds(m);
    if AllWellFormed(q) {
      MarkWellFormed(q, songId, user, dir);
      SortWellFormed(m);
    }
  }

  /** The map keeps the ids of the queue, in order. */
  lemma {:induction false} MarkIds(q: seq<Song>, songId: string, user: string, dir: Direction)
    ensures IdsOf(MarkVote(q, songId, user, dir)) == IdsOf(q)
  {
    var m := MarkVote(q, songId, user, dir);
    MarkVoteSpec(q, songId, user, dir);
    assert forall k :: 0 <= k < |q| ==> IdsOf(m)[k] == IdsOf(q)[k];
  }

  /** The map keeps every song well formed. */
  lemma {:induction false} MarkWellFormed(q: seq<Song>, songId: string, user: string, dir: Direction)
    requires AllWellFormed(q)
    ensures AllWellFormed(MarkVote(q, songId, user, dir))
  {
    var m := MarkVote(q, songId, user, dir);
    MarkVoteSpec(q, songId, user, dir);
    forall k | 0 <= k < |m| ensures WellFormed(m[k]) {
      if q[k].id == songId {
        VotePreservesWellFormed(q[k], user, dir);
      }
    }
  }

  lemma {:induction false} SortWellFormed(q: seq<Song>)
    requires AllWellFormed(q)
    ensures AllWellFormed(SortByVotes(q))
  {
    var r := SortByVotes(q);
    SortSpec(q);
    forall k | 0 <= k < |r| ensures WellFormed(r[k]) {
      assert r[k] in multiset(q);
    }
  }

  /** A vote for an id that is not in the queue only re-sorts it: the
      multiset of songs is unchanged, and a sorted queue stays as it was. */
  lemma {:induction false} VoteUnknownId(q: seq<Song>, songId: string, user: string, dir: Direction)
    requires forall k :: 0 <= k < |q| ==> q[k].id != songId
    ensures multiset(VoteQueue(q, songId, user, dir)) == multiset(q)
    ensures Sorted(q) ==> VoteQueue(q, songId, user, dir) == q
  {
    MarkVoteSpec(q, songId, user, dir);
    assert MarkVote(q, songId, user, dir) == q;
    SortSpec(q);
    if Sorted(q) {
      SortSortedIdentity(q);
    }
  }

  /** Two up-votes in a row by a user who had not voted for the target give
      back exactly the songs of the queue. */
  lemma {:induction false} VoteTwiceRestoresSongs(q: seq<Song>, songId: string, user: string)
    requires forall k :: 0 <= k < |q| && q[k].id == songId ==> user !in q[k].votedBy
    ensures multiset(VoteQueue(VoteQueue(q, songId, user, Up), songId, user, Up)) == multiset(q)
  {
    var m := MarkVote(q, songId, user, Up);
    var mm := MarkVote(m, songId, user, Up);
    MarkVoteSpec(q, songId, user, Up);
    MarkVoteSpec(m, songId, user, Up);
    forall k | 0 <= k < |q| ensures mm[k] == q[k] {
      if q[k].id == songId {
        UpVoteTwice(q[k], user);
      }
    }
    assert mm == q;
    MarkSort(m, songId, user, Up);
    SortSpec(MarkVote(SortByVotes(m), songId, user, Up));
  }

  /** ... but not necessarily their order: the re-sort after the first vote
      can move the target ahead of an equal-voted song, and the re-sort after
      the second keeps it there. */
  lemma {:induction false} VoteTwiceMayReorder()
    ensures var a := Song("a", "", "", "", 1, "", "", "", ["x"]);
            var t := Song("t", "", "", "", 1, "", "", "", ["y"]);
            VoteQueue(VoteQueue([a, t], "t", "u", Up), "t", "u", Up) == [t, a]
  {
    var a := Song("a", "", "", "", 1, "", "", "", ["x"]);
    var t := Song("t", "", "", "", 1, "", "", "", ["y"]);
    var t2 := t.(votes := 2, votedBy := ["y", "u"]);
    assert VoteOn(a, "t", "u", Up) == a;
    assert VoteOn(t, "t", "u", Up) == t2 by {
      assert "u" !in t.votedBy;
    }
    MarkTwo(a, t, "t", "u", Up);
    SortTwo(a, t2);
    assert VoteOn(t2, "t", "u", Up) == t by {
      assert "u" in t2.votedBy;
      assert ["y", "u"][1..] == ["u"];
      assert RemoveAll(["y", "u"], "u") == ["y"];
    }
    MarkTwo(t2, a, "t", "u", Up);
    SortTwo(t, a);
  }

  lemma {:induction false} MarkTwo(x: Song, y: Song, songId: string, user: string, dir: Direction)
    ensures MarkVote([x, y], songId, user, dir) == [VoteOn(x, songId, user, dir), VoteOn(y, songId, user, dir)]
  {
    assert [x, y][1..] == [y];
    assert [y][1..] == [];
  }

  lemma {:induction false} SortTwo(x: Song, y: Song)
    ensures SortByVotes([x, y]) == if x.votes >= y.votes then [x, y] else [y, x]
  {
    assert [x, y][..1] == [x] && [x, y][1] == y;
    assert [x][..0] == [];
    assert SortByVotes([x]) == InsertByVotes(x, []) == [x];
    assert SortByVotes([x, y]) == InsertByVotes(y, [x]);
    assert [x][1..] == [];
    if x.votes >= y.votes {
      assert InsertByVotes(y, [x]) == [x] + InsertByVotes(y, []) == [x] + [y];
    } else {
      assert InsertByVotes(y, [x]) == [y] + [x];
    }
  }

  /** A song with a single vote added to a sorted queue of songs that all have
      a vote goes to the end: songs added one after another keep their order. */
  lemma {:induction false} AddOneVoteLast(q: seq<Song>, x: Song)
    requires Sorted(q) && x.votes == 1
    requires forall k :: 0 <= k < |q| ==> q[k].votes >= 1
    ensures SortByVotes(q + [x]) == q + [x]
  {
    SortAppend(q, x);
    SortSortedIdentity(q);
    InsertAfterAll(x, q);
  }
}
