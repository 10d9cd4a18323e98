/** The jukebox store: the state a browser tab holds for a room (room code,
    queue, song playing, who the user is) and the actions that change it.
    The three shared fields are written to a persisted slot after every
    change another tab must see; the local fields never are. */
module Jukebox {
  import opened Songs
  import opened Queue
  import Text

  /** The characters of `nanoid(4).toUpperCase()`: nanoid's URL-safe
      alphabet with the lower-case letters folded onto the upper-case ones. */
  const ROOM_CODE_ALPHABET: string := "ABCDEFGHIJKLMNOPQRSTUVWXYZ0123456789_-"

  /** A code `createRoom` can generate. */
  predicate IsRoomCode(code: string)
  {
    |code| == 4 && forall k :: 0 <= k < |code| ==> code[k] in ROOM_CODE_ALPHABET
  }

  /** The state `getSharedState` falls back to when nothing is stored. */
  const EMPTY_SHARED: SharedState := SharedState(None, [], None)

  /** `getSharedState`: the stored state, or the empty one. */
  function LoadShared(slot: Option<SharedState>): SharedState
  {
    match slot
    case None => EMPTY_SHARED
    case Some(s) => s
  }

  /** What the store keeps true of the shared state: every song well formed,
      the queue in vote order, no id twice, and the song playing neither
      malformed nor still waiting in the queue. */
  ghost predicate Consistent(s: SharedState)
  {
    AllWellFormed(s.queue) && Sorted(s.queue) && UniqueIds(s.queue)
    && (s.nowPlaying.Some? ==> WellFormed(s.nowPlaying.value) && s.nowPlaying.value.id !in IdsOf(s.queue))
  }

  /** An id that no song of the state has yet; `nanoid()` is relied on to
      produce one. */
  predicate FreshId(s: SharedState, id: string)
  {
    id !in IdsOf(s.queue) && (s.nowPlaying.Some? ==> s.nowPlaying.value.id != id)
  }

  /** The shared state after `addSong`: the song appended and the queue re-sorted. */
  function Added(s: SharedState, song: Song): SharedState
  {
    s.(queue := SortByVotes(s.queue + [song]))
  }

  /** The shared state after `vote` by a signed-in user. */
  function Voted(s: SharedState, songId: string, user: string, dir: Direction): SharedState
  {
    s.(queue := VoteQueue(s.queue, songId, user, dir))
  }

  /** The shared state after `playNext`. */
  function Advanced(s: SharedState): SharedState
  {
    if s.queue == [] then s else SharedState(s.roomCode, s.queue[1..], Some(s.queue[0]))
  }

  lemma {:induction false} EmptyConsistent()
    ensures Consistent(EMPTY_SHARED)
  {
    assert IdsOf([]) == [];
  }

  /** Two positions holding the same value give it a count of at least two. */
  lemma {:induction false} CountTwice(s: seq<string>, j: nat, k: nat)
    requires j < k < |s| && s[j] == s[k]
    ensures multiset(s)[s[k]] >= 2
  {
    assert s == s[..k] + [s[k]] + s[k + 1..];
    assert s[j] == s[..k][j];
    assert s[k] in multiset(s[..k]);
  }

  /** In a queue without repeated ids, distinct positions hold distinct ids. */
  lemma {:induction false} UniqueIdsAt(q: seq<Song>, j: nat, k: nat)
    requires UniqueIds(q) && j < |q| && k < |q| && j != k
    ensures q[j].id != q[k].id
  {
    var ids := IdsOf(q);
    if q[j].id == q[k].id {
      if j < k {
        CountTwice(ids, j, k);
      } else {
        CountTwice(ids, k, j);
      }
    }
  }

  /** Adding a song keeps the room and the song playing, puts exactly that
      song into the queue, keeps the queue in vote order, and moves no
      other song: the new one lands behind every song with at least its votes. */
  lemma {:induction false} AddedSpec(s: SharedState, song: Song) returns (k: nat)
    requires Sorted(s.queue)
    ensures var r := Added(s, song);
            r.roomCode == s.roomCode && r.nowPlaying == s.nowPlaying
            && Sorted(r.queue) && multiset(r.queue) == multiset(s.queue) + multiset{song}
            && k <= |s.queue| && r.queue == s.queue[..k] + [song] + s.queue[k..]
            && (forall i :: 0 <= i < k ==> s.queue[i].votes >= song.votes)
            && (forall i :: k <= i < |s.queue| ==> s.queue[i].votes < song.votes)
  {
    k := AddToSorted(s.queue, song);
    SortSpec(s.queue + [song]);
  }

  /** Songs `A - X`, `B - Y` and `Z` added one after another to an empty room
      stay in the order they were added, each with its one vote, parsed as
      artist `A` with title `X`, artist `B` with title `Y`, and title `Z`. */
  lemma {:induction false} AddThreeInOrder(user: string, id1: string, id2: string, id3: string, c1: string, c2: string, c3: string)
    ensures var s1, s2, s3 := NewSong("A - X", id1, user, c1), NewSong("B - Y", id2, user, c2), NewSong("Z", id3, user, c3);
            Added(Added(Added(EMPTY_SHARED, s1), s2), s3).queue == [s1, s2, s3]
            && s1.artist == "A" && s1.title == "X" && s2.artist == "B" && s2.title == "Y"
            && s3.artist == "Requested Track" && s3.title == "Z"
            && s1.votes == 1 && s2.votes == 1 && s3.votes == 1
  {
    ThreeParses();
    var s1, s2, s3 := NewSong("A - X", id1, user, c1), NewSong("B - Y", id2, user, c2), NewSong("Z", id3, user, c3);
    OneVoteSongsInOrder(s1, s2, s3);
  }

  /** A room just created, a video link added to it, then the next song
      played: the link plays as "YouTube Track" and the queue is empty. */
  lemma {:induction false} YouTubeAddThenPlay(code: string, id: string, user: string, cover: string)
    ensures var song := NewSong("http://youtu.be/xyz", id, user, cover);
            var r := Advanced(Added(SharedState(Some(code), [], None), song));
            song.title == "YouTube Track" && song.artist == "YouTube" && song.url == "http://youtu.be/xyz"
            && r == SharedState(Some(code), [], Some(song))
  {
    var q := "http://youtu.be/xyz";
    assert q[7..7 + |YOUTU_BE_HOST|] == YOUTU_BE_HOST;
    assert Text.OccursAt(q, YOUTU_BE_HOST, 7);
    Text.ContainsSpec(q, YOUTU_BE_HOST);
    ParseQueryYouTube(q);
    var song := NewSong(q, id, user, cover);
    AddOneVoteToOneVotes(SharedState(Some(code), [], None), song);
  }

  lemma {:induction false} ThreeParses()
    ensures ParseQuery("A - X") == Track("X", "A", FALLBACK_URL)
    ensures ParseQuery("B - Y") == Track("Y", "B", FALLBACK_URL)
    ensures ParseQuery("Z") == Track("Z", "Requested Track", FALLBACK_URL)
  {
    ParseAX();
    ParseBY();
    ParseSingle('Z');
  }

  lemma {:induction false} ParseAX()
    ensures ParseQuery("A - X") == Track("X", "A", FALLBACK_URL)
  {
    assert "A - X" == ['A', ' ', '-', ' ', 'X'];
    ParseArtistTitle('A', 'X');
  }

  lemma {:induction false} ParseBY()
    ensures ParseQuery("B - Y") == Track("Y", "B", FALLBACK_URL)
  {
    assert "B - Y" == ['B', ' ', '-', ' ', 'Y'];
    ParseArtistTitle('B', 'Y');
  }

  /** Songs with one vote each, added one after another to an empty room,
      stay in the order they were added. */
  lemma {:induction false} OneVoteSongsInOrder(s1: Song, s2: Song, s3: Song)
    requires s1.votes == 1 && s2.votes == 1 && s3.votes == 1
    ensures Added(Added(Added(EMPTY_SHARED, s1), s2), s3).queue == [s1, s2, s3]
  {
    var a := Added(EMPTY_SHARED, s1);
    AddOneVoteToOneVotes(EMPTY_SHARED, s1);
    assert a.queue == [s1];
    var b := Added(a, s2);
    AddOneVoteToOneVotes(a, s2);
    assert b.queue == [s1, s2];
    AddOneVoteToOneVotes(b, s3);
  }

  /** A one-vote song added to a queue of one-vote songs goes to its end. */
  lemma {:induction false} AddOneVoteToOneVotes(s: SharedState, song: Song)
    requires song.votes == 1 && forall k :: 0 <= k < |s.queue| ==> s.queue[k].votes == 1
    ensures Added(s, song).queue == s.queue + [song]
  {
    AddOneVoteLast(s.queue, song);
  }

  /** Adding a song adds its id to the ids of the queue. */
  lemma {:induction false} AddedIds(q: seq<Song>, song: Song)
    ensures multiset(IdsOf(SortByVotes(q + [song]))) == multiset(IdsOf(q)) + multiset{song.id}
  {
    var a := q + [song];
    SortIds(a);
    assert a[..|a| - 1] == q;
    LastId(a);
  }

  /** Adding well-formed songs to well-formed songs gives well-formed songs. */
  lemma {:induction false} AddedWellFormed(q: seq<Song>, song: Song)
    requires AllWellFormed(q) && WellFormed(song)
    ensures AllWellFormed(SortByVotes(q + [song]))
  {
    var a := q + [song];
    forall k | 0 <= k < |a| ensures WellFormed(a[k]) {
      if k < |q| {
        assert a[k] == q[k];
      }
    }
    SortWellFormed(a);
  }

  /** Adding a well-formed song with a fresh id keeps the state consistent. */
  lemma {:induction false} AddedKeepsConsistent(s: SharedState, song: Song)
    requires Consistent(s) && WellFormed(song) && FreshId(s, song.id)
    ensures Consistent(Added(s, song))
  {
    SortSorted(s.queue + [song]);
    AddedWellFormed(s.queue, song);
    AddedUnique(s.queue, song);
    if s.nowPlaying.Some? {
      AddedAbsent(s.queue, s.nowPlaying.value.id, song);
    }
  }

  /** Adding a song whose id is new keeps the ids distinct. */
  lemma {:induction false} AddedUnique(q: seq<Song>, song: Song)
    requires UniqueIds(q) && song.id !in IdsOf(q)
    ensures UniqueIds(SortByVotes(q + [song]))
  {
    var before, after := multiset(IdsOf(q)), multiset(IdsOf(SortByVotes(q + [song])));
    AddedIds(q, song);
    assert before[song.id] == 0;
    forall i ensures after[i] <= 1 {
      assert before[i] <= 1;
    }
  }

  /** An id that is neither in the queue nor the new song's stays out of it. */
  lemma {:induction false} AddedAbsent(q: seq<Song>, id: string, song: Song)
    requires id !in IdsOf(q) && id != song.id
    ensures id !in IdsOf(SortByVotes(q + [song]))
  {
    var before, after := multiset(IdsOf(q)), multiset(IdsOf(SortByVotes(q + [song])));
    AddedIds(q, song);
    assert before[id] == 0;
    assert after[id] == 0;
  }

  /** A vote keeps the state consistent. */
  lemma {:induction false} VotedKeepsConsistent(s: SharedState, songId: string, user: string, dir: Direction)
    requires Consistent(s)
    ensures Consistent(Voted(s, songId, user, dir))
  {
    var r := VoteQueue(s.queue, songId, user, dir);
    VoteQueueSpec(s.queue, songId, user, dir);
    forall id ensures multiset(IdsOf(r))[id] <= 1 {
      assert multiset(IdsOf(s.queue))[id] <= 1;
    }
    if s.nowPlaying.Some? {
      var np := s.nowPlaying.value;
      assert multiset(IdsOf(s.queue))[np.id] == 0;
    }
  }

  /** In a consistent state a vote for a song of the queue changes that song
      alone: the new queue holds the old songs with just that one voted on. */
  lemma {:induction false} VotedChangesTarget(s: SharedState, k: nat, user: string, dir: Direction)
    requires Consistent(s) && k < |s.queue|
    ensures var r := Voted(s, s.queue[k].id, user, dir);
            multiset(r.queue) == multiset(s.queue[k := ApplyVote(s.queue[k], user, dir)])
            && r.roomCode == s.roomCode && r.nowPlaying == s.nowPlaying
  {
    var q, songId := s.queue, s.queue[k].id;
    var m := MarkVote(q, songId, user, dir);
    MarkVoteSpec(q, songId, user, dir);
    forall j | 0 <= j < |q| ensures m[j] == q[k := ApplyVote(q[k], user, dir)][j] {
      if j != k {
        UniqueIdsAt(q, j, k);
      }
    }
    assert m == q[k := ApplyVote(q[k], user, dir)];
    SortSpec(m);
  }

  /** A vote for an id that is in no song of a consistent state changes nothing. */
  lemma {:induction false} VotedUnknownKeeps(s: SharedState, songId: string, user: string, dir: Direction)
    requires Consistent(s) && songId !in IdsOf(s.queue)
    ensures Voted(s, songId, user, dir) == s
  {
    assert forall k :: 0 <= k < |s.queue| ==> s.queue[k].id == IdsOf(s.queue)[k];
    VoteUnknownId(s.queue, songId, user, dir);
  }

  /** Playing the next song takes the head of the queue, the song with the
      most votes: no song is lost or made up, and the one now playing is no
      longer waiting. An empty queue leaves everything as it was. */
  lemma {:induction false} AdvancedSpec(s: SharedState)
    requires Consistent(s)
    ensures var r := Advanced(s);
            r.roomCode == s.roomCode
            && (s.queue == [] ==> r == s)
            && (s.queue != [] ==>
                  r.nowPlaying.Some?
                  && multiset(r.queue) + multiset{r.nowPlaying.value} == multiset(s.queue)
                  && (forall k :: 0 <= k < |r.queue| ==> r.queue[k].votes <= r.nowPlaying.value.votes)
                  && r.nowPlaying.value.id !in IdsOf(r.queue))
  {
    if s.queue != [] {
      var q := s.queue;
      assert q == [q[0]] + q[1..];
      forall k | 0 <= k < |q[1..]| ensures q[1..][k].id != q[0].id {
        UniqueIdsAt(q, k + 1, 0);
      }
    }
  }

  /** Playing the next song keeps the state consistent. */
  lemma {:induction false} AdvancedKeepsConsistent(s: SharedState)
    requires Consistent(s)
    ensures Consistent(Advanced(s))
  {
    if s.queue != [] {
      var q := s.queue;
      AdvancedSpec(s);
      assert q == [q[0]] + q[1..];
      assert IdsOf(q) == [q[0].id] + IdsOf(q[1..]);
      forall id ensures multiset(IdsOf(q[1..]))[id] <= 1 {
        assert multiset(IdsOf(q))[id] <= 1;
      }
      assert AllWellFormed(q[1..]) by {
        forall k | 0 <= k < |q[1..]| ensures WellFormed(q[1..][k]) {
          assert q[1..][k] == q[k + 1];
        }
      }
      assert Sorted(q[1..]) by {
        forall i, j | 0 <= i < j < |q[1..]| ensures q[1..][i].votes >= q[1..][j].votes {
          assert q[1..][i] == q[i + 1] && q[1..][j] == q[j + 1];
        }
      }
    }
  }

  /** The store of one browser tab. `persisted` is the shared slot every
      tab reads; `None` stands for a slot that holds nothing. */
  class Store {
    var roomCode: Option<string>
    var queue: seq<Song>
    var nowPlaying: Option<Song>
    var isHost: bool
    var username: string
    var persisted: Option<SharedState>

    /** The shared part of the store, as it is written to the slot. */
    function Shared(): SharedState
      reads this
    {
      SharedState(roomCode, queue, nowPlaying)
    }

    /** The initial state: whatever the slot holds, as a guest with no name. */
    constructor (slot: Option<SharedState>)
      ensures Shared() == LoadShared(slot) && persisted == slot
      ensures !isHost && username == ""
    {
      var s := LoadShared(slot);
      roomCode, queue, nowPlaying := s.roomCode, s.queue, s.nowPlaying;
      isHost, username := false, "";
      persisted := slot;
    }

    /** `syncFromStorage`: adopts a shared state another tab wrote; the local
        fields and the slot are untouched. */
    method SyncFromStorage(state: SharedState)
      modifies this
      ensures Shared() == state
      ensures isHost == old(isHost) && username == old(username) && persisted == old(persisted)
    {
      roomCode, queue, nowPlaying := state.roomCode, state.queue, state.nowPlaying;
    }

    /** Another tab's `setSharedState` overwrites the slot this tab reads;
        this tab's own fields stay until it syncs. */
    method ExternalWrite(state: SharedState)
      modifies this
      ensures persisted == Some(state) && LoadShared(persisted) == state
      ensures Shared() == old(Shared()) && isHost == old(isHost) && username == old(username)
    {
      persisted := Some(state);
    }

    /** `setRoomCode`: changes the room code locally, without writing the slot. */
    method SetRoomCode(code: string)
      modifies this
      ensures Shared() == old(Shared()).(roomCode := Some(code))
      ensures isHost == old(isHost) && username == old(username) && persisted == old(persisted)
      ensures old(Consistent(Shared())) ==> Consistent(Shared())
    {
      roomCode := Some(code);
    }

    /** `createRoom`: a new empty room under a generated code, with this tab
        as its host; the new room is written to the slot. */
    method CreateRoom(name: string, code: string)
      requires IsRoomCode(code)
      modifies this
      ensures Shared() == SharedState(Some(code), [], None) && Consistent(Shared())
      ensures isHost && username == name
      ensures persisted == Some(Shared()) && LoadShared(persisted) == Shared()
    {
      roomCode, queue, nowPlaying := Some(code), [], None;
      isHost, username := true, name;
      persisted := Some(Shared());
      EmptyConsistent();
    }

    /** `joinRoom`: takes the stored room when its code matches; otherwise
        only the room code is taken over and the local queue and song
        playing stay. Either way the tab is a guest and nothing is written. */
    method JoinRoom(code: string, name: string)
      modifies this
      ensures var stored := LoadShared(old(persisted));
              if stored.roomCode == Some(code) then Shared() == stored
              else Shared() == old(Shared()).(roomCode := Some(code))
      ensures !isHost && username == name && persisted == old(persisted)
      ensures old(Consistent(Shared())) && Consistent(LoadShared(old(persisted))) ==> Consistent(Shared())
    {
      var stored := LoadShared(persisted);
      if stored.roomCode == Some(code) {
        roomCode, queue, nowPlaying := stored.roomCode, stored.queue, stored.nowPlaying;
      } else {
        roomCode := Some(code);
      }
      isHost, username := false, name;
    }

    /** `addSong`: a new song from the query, added by the current user, goes
        into the queue, which is re-sorted and written to the slot. The id and
        the cover are the values `nanoid()` and `Math.random()` produce. */
    method AddSong(query: string, id: string, coverIndex: nat)
      requires coverIndex < |MOCK_COVERS|
      modifies this
      ensures Shared() == Added(old(Shared()), NewSong(query, id, username, MOCK_COVERS[coverIndex]))
      ensures isHost == old(isHost) && username == old(username)
      ensures persisted == Some(Shared()) && LoadShared(persisted) == Shared()
      ensures old(Consistent(Shared())) && FreshId(old(Shared()), id) ==> Consistent(Shared())
    {
      var song := NewSong(query, id, username, MOCK_COVERS[coverIndex]);
      if Consistent(Shared()) && FreshId(Shared(), id) {
        AddedKeepsConsistent(Shared(), song);
      }
      queue := SortByVotes(queue + [song]);
      persisted := Some(Shared());
    }

    /** `vote`: a tab with no user name changes nothing; otherwise the vote is
        applied to the songs with that id, the queue re-sorted and the slot
        written, also when no song has the id. */
    method Vote(songId: string, dir: Direction)
      modifies this
      ensures username == "" ==> unchanged(this)
      ensures username != "" ==> Shared() == Voted(old(Shared()), songId, username, dir)
                                 && persisted == Some(Shared())
      ensures isHost == old(isHost) && username == old(username)
      ensures old(Consistent(Shared())) ==> Consistent(Shared())
    {
      if username == "" {
        return;
      }
      if Consistent(Shared()) {
        VotedKeepsConsistent(Shared(), songId, username, dir);
      }
      queue := VoteQueue(queue, songId, username, dir);
      persisted := Some(Shared());
    }

    /** `playNext`: with an empty queue nothing happens; otherwise the head
        of the queue becomes the song playing and the slot is written. */
    method PlayNext()
      modifies this
      ensures Shared() == Advanced(old(Shared()))
      ensures old(queue) == [] ==> persisted == old(persisted)
      ensures old(queue) != [] ==> persisted == Some(Shared())
      ensures isHost == old(isHost) && username == old(username)
      ensures old(Consistent(Shared())) ==> Consistent(Shared())
    {
      if queue == [] {
        return;
      }
      if Consistent(Shared()) {
        AdvancedKeepsConsistent(Shared());
      }
      nowPlaying := Some(queue[0]);
      queue := queue[1..];
      persisted := Some(Shared());
    }

    /** `skipSong`: the same as playing the next song. */
    method SkipSong()
      modifies this
      ensures Shared() == Advanced(old(Shared()))
      ensures old(queue) == [] ==> persisted == old(persisted)
      ensures old(queue) != [] ==> persisted == Some(Shared())
      ensures isHost == old(isHost) && username == old(username)
      ensures old(Consistent(Shared())) ==> Consistent(Shared())
    {
      PlayNext();
    }
  }
}
