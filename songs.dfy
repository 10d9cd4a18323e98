/** The song record of the jukebox, how a typed query becomes a song, and how
    one user's vote changes one song. */
module Songs {
  import opened Text

  datatype Option<T> = None | Some(value: T)

  /** A queued or playing track; `votedBy` lists the users whose up-vote is active. */
  datatype Song = Song(
    id: string,
    title: string,
    artist: string,
    url: string,
    votes: int,
    addedBy: string,
    duration: string,
    cover: string,
    votedBy: seq<string>)

  /** The record that every shared mutation writes, in full, to the persisted slot. */
  datatype SharedState = SharedState(roomCode: Option<string>, queue: seq<Song>, nowPlaying: Option<Song>)

  /** The placeholder cover images one of which a new song receives. */
  const MOCK_COVERS: seq<string> := [
    "https://images.unsplash.com/photo-1614613535308-eb5fbd3d2c17?w=300&h=300&fit=crop",
    "https://images.unsplash.com/photo-1493225255756-d9584f8606e9?w=300&h=300&fit=crop",
    "https://images.unsplash.com/photo-1514525253440-b393452e8d26?w=300&h=300&fit=crop",
    "https://images.unsplash.com/photo-1470225620780-dba8ba36b745?w=300&h=300&fit=crop"
  ]

  /** The two host names whose presence marks a query as a video link. */
  const YOUTUBE_HOST: string := "youtube.com"
  const YOUTU_BE_HOST: string := "youtu.be"

  /** The playable URL substituted for every query that is not a video link
      (`https://www.youtube.com/watch?v=dQw4w9WgXcQ`). */
  const FALLBACK_URL: string := "https://www." + YOUTUBE_HOST + "/watch?v=dQw4w9WgXcQ"

  /** The duration shown for every song. */
  const DURATION: string := "3:00"

  /** What the naive query parser makes of a query. */
  datatype Track = Track(title: string, artist: string, url: string)

  predicate IsYouTubeQuery(query: string)
  {
    Contains(query, YOUTUBE_HOST) || Contains(query, YOUTU_BE_HOST)
  }

  /** The mock content resolution of `addSong`: a video link is kept as the
      URL; otherwise `Artist - Title` is read off the first two segments of
      the query split at every hyphen, and anything else is a title. */
  function ParseQuery(query: string): (t: Track)
    ensures t.url == query <==> IsYouTubeQuery(query)
    ensures !IsYouTubeQuery(query) ==> t.url == FALLBACK_URL
    ensures '-' !in t.title && '-' !in t.artist
  {
    if IsYouTubeQuery(query) then
      Track("YouTube Track", "YouTube", query)
    else
      FallbackIsYouTube();
      ContainsChar(query, '-');
      if Contains(query, "-") then
        var parts := Split(query, '-');
        SplitSegments(query, '-');
        TrimKeepsOut(parts[0], '-');
        TrimKeepsOut(parts[1], '-');
        Track(Trim(parts[1]), Trim(parts[0]), FALLBACK_URL)
      else
        Track(query, "Requested Track", FALLBACK_URL)
  }

  /** The fallback URL is itself a video link, so it never equals a query
      that is not one. */
  lemma {:induction false} FallbackIsYouTube()
    ensures IsYouTubeQuery(FALLBACK_URL)
  {
    var pre, post := "https://www.", "/watch?v=dQw4w9WgXcQ";
    assert FALLBACK_URL[|pre|..|pre| + |YOUTUBE_HOST|] == YOUTUBE_HOST;
    assert OccursAt(FALLBACK_URL, YOUTUBE_HOST, |pre|);
    ContainsSpec(FALLBACK_URL, YOUTUBE_HOST);
  }

  /** A query without a video link but with a hyphen reads, by position, as
      the trimmed text before the first hyphen (the artist) and the trimmed
      text between the first hyphen and the next one or the end (the title):
      whatever follows a second hyphen is dropped. */
  lemma {:induction false} ParseQueryHyphen(query: string) returns (i: nat, j: nat)
    requires !IsYouTubeQuery(query) && '-' in query
    ensures i < j <= |query| && query[i] == '-' && '-' !in query[..i]
    ensures '-' !in query[i + 1..j] && (j == |query| || query[j] == '-')
    ensures ParseQuery(query) == Track(Trim(query[i + 1..j]), Trim(query[..i]), FALLBACK_URL)
  {
    i, j := SplitFirstTwo(query, '-');
    ParseQuerySplit(query);
  }

  /** The hyphen case in terms of the split the source performs. */
  lemma {:induction false} ParseQuerySplit(query: string)
    requires !IsYouTubeQuery(query) && '-' in query
    ensures |Split(query, '-')| >= 2
    ensures ParseQuery(query) == Track(Trim(Split(query, '-')[1]), Trim(Split(query, '-')[0]), FALLBACK_URL)
  {
    ContainsChar(query, '-');
  }

  /** A query with neither a video link nor a hyphen is taken as the title. */
  lemma {:induction false} ParseQueryPlain(query: string)
    requires !IsYouTubeQuery(query) && '-' !in query
    ensures ParseQuery(query) == Track(query, "Requested Track", FALLBACK_URL)
  {
    ContainsChar(query, '-');
  }

  /** A video link is kept as the URL, under the placeholder title and artist. */
  lemma {:induction false} ParseQueryYouTube(query: string)
    requires IsYouTubeQuery(query)
    ensures ParseQuery(query) == Track("YouTube Track", "YouTube", query)
  {
  }

  /** `A - X`, for any one-character artist and title, reads as that artist
      and that title with the fallback URL. */
  lemma {:induction false} ParseArtistTitle(a: char, x: char)
    requires !IsWhiteSpace(a) && !IsWhiteSpace(x) && a != '-' && x != '-'
    ensures ParseQuery([a, ' ', '-', ' ', x]) == Track([x], [a], FALLBACK_URL)
  {
    var q := [a, ' ', '-', ' ', x];
    ShortNotYouTube(q);
    assert q[2] == '-';
    SplitPair(a, x);
    ParseQuerySplit(q);
    TrimRight(a);
    TrimLeft(x);
  }

  /** A query shorter than both host names is no video link. */
  lemma {:induction false} ShortNotYouTube(q: string)
    requires |q| < |YOUTU_BE_HOST|
    ensures !IsYouTubeQuery(q)
  {
  }

  lemma {:induction false} SplitPair(a: char, x: char)
    requires a != '-' && x != '-'
    ensures Split([a, ' ', '-', ' ', x], '-') == [[a, ' '], [' ', x]]
  {
    var parts := [[a, ' '], [' ', x]];
    assert Join(parts, '-') == [a, ' ', '-', ' ', x] by {
      assert parts[1..] == [[' ', x]];
    }
    SplitUnique(parts, '-');
  }

  lemma {:induction false} TrimRight(a: char)
    requires !IsWhiteSpace(a)
    ensures Trim([a, ' ']) == [a]
  {
    var s := [a, ' '];
    assert LeadingSpace(s) == 0;
    assert s[..1] == [a];
    assert TrailingSpace(s) == 1;
  }

  lemma {:induction false} TrimLeft(x: char)
    requires !IsWhiteSpace(x)
    ensures Trim([' ', x]) == [x]
  {
    var s := [' ', x];
    assert s[1..] == [x];
    assert LeadingSpace(s) == 1;
  }

  /** A one-character query other than a hyphen is taken as the title. */
  lemma {:induction false} ParseSingle(z: char)
    requires z != '-'
    ensures ParseQuery([z]) == Track([z], "Requested Track", FALLBACK_URL)
  {
    ShortNotYouTube([z]);
    ParseQueryPlain([z]);
  }

  /** No voter appears twice. */
  predicate NoDup(names: seq<string>)
  {
    forall i, j :: 0 <= i < j < |names| ==> names[i] != names[j]
  }

  /** The vote count agrees with the list of distinct voters. */
  predicate WellFormed(song: Song)
  {
    song.votes == |song.votedBy| && NoDup(song.votedBy)
  }

  /** The song `addSong` builds: parsed from the query, up-voted by its adder. */
  function NewSong(query: string, id: string, user: string, cover: string): (s: Song)
    ensures WellFormed(s) && s.votes == 1 && user in s.votedBy
    ensures s.addedBy == user && s.duration == DURATION && s.id == id && s.cover == cover
  {
    var t := ParseQuery(query);
    Song(id, t.title, t.artist, t.url, 1, user, DURATION, cover, [user])
  }

  datatype Direction = Up | Down

  /** `names.filter(u => u !== user)`. */
  function RemoveAll(names: seq<string>, user: string): (r: seq<string>)
    ensures |r| <= |names|
  {
    if names == [] then []
    else (if names[0] == user then [] else [names[0]]) + RemoveAll(names[1..], user)
  }

  /** The filter keeps exactly the other names. */
  lemma {:induction false} RemoveAllMembers(names: seq<string>, user: string)
    ensures forall w :: w in RemoveAll(names, user) <==> w in names && w != user
  {
    if names != [] {
      RemoveAllMembers(names[1..], user);
      assert names == [names[0]] + names[1..];
    }
  }

  /** Filtering a name out of a list that ends with its only occurrence
      gives back the list without it. */
  lemma {:induction false} RemoveAllLast(names: seq<string>, user: string)
    requires user !in names
    ensures RemoveAll(names + [user], user) == names
  {
    var l := names + [user];
    if names == [] {
      assert l[1..] == [];
    } else {
      RemoveAllLast(names[1..], user);
      assert l[0] == names[0] && l[1..] == names[1..] + [user];
      assert names == [names[0]] + names[1..];
    }
  }

  /** Filtering out a name that is absent changes nothing. */
  lemma {:induction false} RemoveAllAbsent(names: seq<string>, user: string)
    requires user !in names
    ensures RemoveAll(names, user) == names
  {
    if names != [] {
      RemoveAllAbsent(names[1..], user);
    }
  }

  /** Filtering a name out of a duplicate-free list keeps it duplicate-free and
      removes exactly one entry when the name was present. */
  lemma {:induction false} RemoveAllNoDup(names: seq<string>, user: string)
    requires NoDup(names)
    ensures NoDup(RemoveAll(names, user))
    ensures user in names ==> |RemoveAll(names, user)| == |names| - 1
  {
    if names != [] {
      var tail := names[1..];
      RemoveAllNoDup(tail, user);
      RemoveAllMembers(tail, user);
      var r := RemoveAll(tail, user);
      assert names[0] !in tail;
      if names[0] == user {
        RemoveAllAbsent(tail, user);
      } else {
        assert names[0] !in r;
        assert RemoveAll(names, user) == [names[0]] + r;
      }
    }
  }

  /** The per-song update of `vote`: an up-vote toggles the user's vote, a
      down-vote only withdraws it; nothing but `votes` and `votedBy` changes. */
  function ApplyVote(song: Song, user: string, dir: Direction): (r: Song)
    ensures r == song.(votes := r.votes, votedBy := r.votedBy)
  {
    var hasVoted := user in song.votedBy;
    match dir
    case Up =>
      if hasVoted then song.(votes := song.votes - 1, votedBy := RemoveAll(song.votedBy, user))
      else song.(votes := song.votes + 1, votedBy := song.votedBy + [user])
    case Down =>
      if hasVoted then song.(votes := song.votes - 1, votedBy := RemoveAll(song.votedBy, user))
      else song
  }

  /** An up-vote flips the user's membership in `votedBy`, moves `votes` by one
      in the matching direction and leaves every other voter where they were. */
  lemma {:induction false} UpVoteToggles(song: Song, user: string)
    ensures var r := ApplyVote(song, user, Up);
            (user in r.votedBy <==> user !in song.votedBy)
            && (forall w :: w != user ==> (w in r.votedBy <==> w in song.votedBy))
            && r.votes == (if user in song.votedBy then song.votes - 1 else song.votes + 1)
  {
    RemoveAllMembers(song.votedBy, user);
  }

  /** Two up-votes in a row by the same user restore the song's vote count and
      its set of voters; when the user had not voted, the song itself. */
  lemma {:induction false} UpVoteTwice(song: Song, user: string)
    ensures var r := ApplyVote(ApplyVote(song, user, Up), user, Up);
            r.votes == song.votes
            && (forall w :: w in r.votedBy <==> w in song.votedBy)
            && (user !in song.votedBy ==> r == song)
  {
    if user !in song.votedBy {
      RemoveAllLast(song.votedBy, user);
    } else {
      RemoveAllMembers(song.votedBy, user);
    }
  }

  /** A down-vote never raises the count: it leaves a song the user has not
      voted for unchanged, and otherwise withdraws the vote exactly as the
      up-vote toggle does. */
  lemma {:induction false} DownVoteWithdraws(song: Song, user: string)
    ensures var r := ApplyVote(song, user, Down);
            r.votes <= song.votes && user !in r.votedBy
            && (user !in song.votedBy ==> r == song)
            && (user in song.votedBy ==> r == ApplyVote(song, user, Up))
  {
    RemoveAllMembers(song.votedBy, user);
  }

  /** Voting keeps `votes == |votedBy|` with distinct voters, so a song built
      by the store never has a negative count. */
  lemma {:induction false} VotePreservesWellFormed(song: Song, user: string, dir: Direction)
    requires WellFormed(song)
    ensures WellFormed(ApplyVote(song, user, dir)) && ApplyVote(song, user, dir).votes >= 0
  {
    RemoveAllNoDup(song.votedBy, user);
  }

  /** `n` up-votes in a row by one user. */
  function UpVotes(song: Song, user: string, n: nat): Song
  {
    if n == 0 then song else ApplyVote(UpVotes(song, user, n - 1), user, Up)
  }

  /** After any number of up-toggles by one user the user's vote is active
      exactly when the parity of toggles flipped it, and the count has moved
      by that one vote at most. */
  lemma {:induction false} UpVotesParity(song: Song, user: string, n: nat)
    ensures var r := UpVotes(song, user, n);
            ((user in r.votedBy) <==> ((user in song.votedBy) == (n % 2 == 0)))
            && r.votes == song.votes + (if user in r.votedBy then 1 else 0) - (if user in song.votedBy then 1 else 0)
  {
    if n > 0 {
      var p := UpVotes(song, user, n - 1);
      UpVotesParity(song, user, n - 1);
      UpVoteToggles(p, user);
      ParityStep(n);
    }
  }

  lemma {:induction false} ParityStep(n: nat)
    requires n > 0
    ensures (n % 2 == 0) == ((n - 1) % 2 != 0)
  {
  }

  /** ... and the song stays well formed, so its count never goes negative. */
  lemma {:induction false} UpVotesWellFormed(song: Song, user: string, n: nat)
    requires WellFormed(song)
    ensures WellFormed(UpVotes(song, user, n)) && UpVotes(song, user, n).votes >= 0
  {
    if n > 0 {
      UpVotesWellFormed(song, user, n - 1);
      VotePreservesWellFormed(UpVotes(song, user, n - 1), user, Up);
    }
  }

  /** For the user who added a song, `n` toggles leave one vote when `n` is
      even and none when it is odd; for anybody else, the added vote of the
      adder stays and the toggles add one vote when `n` is odd. */
  lemma {:induction false} NewSongToggles(query: string, id: string, adder: string, cover: string, user: string, n: nat)
    ensures var r := UpVotes(NewSong(query, id, adder, cover), user, n);
            r.votes == (if user == adder then (if n % 2 == 0 then 1 else 0)
                        else (if n % 2 == 0 then 1 else 2))
  {
    UpVotesParity(NewSong(query, id, adder, cover), user, n);
  }
}
