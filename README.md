# Jukebox store model

This project models the state store of a shared "jukebox" web app, in Dafny.
The store lives in `store.ts`. A host creates a room under a four-character
code and guests join it. Anyone in the room can add songs to a queue. A signed-in
user can up-vote a song, which toggles their vote, or down-vote it, which only
withdraws a vote they gave. The queue is kept in descending order of votes by a
stable sort. Playing the next song moves the head of the queue to "now playing".
`createRoom`, `addSong`, `vote` (with a user name) and `playNext`/`skipSong`
on a non-empty queue write the three shared fields (room code, queue, song
playing), in full, to one persisted slot that every browser tab reads.
`setRoomCode`, `joinRoom` and `syncFromStorage` change them in this tab only.
The two local fields (`isHost`, `username`) are never written there.

The project has four modules, which split `store.ts` by concern: strings,
songs, the queue, and the store itself.

- `Text` (`text.dfy`) covers the JavaScript string operations that the query
  parser relies on: `includes`, `split` on a one-character separator and
  `trim`. It also defines `join`, which the store never calls; it serves only
  to state that `split` and `join` are inverse.
- `Songs` (`songs.dfy`) covers the `Song` and `SharedState` records, the
  constants, the mock query parser of `addSong`, the song it builds, and the
  per-song vote update inside `vote`.
- `Queue` (`queue.dfy`) covers the queue discipline: the sort by votes as a
  stable insertion sort, the `queue.map(...)` of `vote`, and the vote on the
  queue as a whole.
- `Jukebox` (`store.dfy`) has the class `Store`. Five of its fields are the
  store's fields. The sixth, `persisted`, stands for the `localStorage` slot.
  All but one of its methods are the store's actions. `ExternalWrite` is
  another tab's `setSharedState` writing the slot. The module also has the
  pure transitions `Added`, `Voted` and `Advanced` that specify those
  methods. The invariant
  `Consistent` holds that:
  - every song is well formed, meaning `votes == |votedBy|` with distinct
    voters;
  - the queue is sorted;
  - no id appears twice;
  - the song playing is not in the queue.

  Creating a room establishes this invariant outright. Adding a song (with
  a fresh id), voting, playing the next song and setting the room code keep
  it whenever it held before. The other entry points take a state from
  outside, so they keep it only when that state already has it:
  - `SyncFromStorage` adopts whatever snapshot it is given;
  - `JoinRoom` adopts the stored state when its code matches;
  - the constructor starts from whatever the slot holds.

Randomness is lifted to parameters:
- `nanoid(4).toUpperCase()` becomes a `code` argument that satisfies
  `IsRoomCode`: four characters from `A-Z`, `0-9`, `_` and `-`.
- `nanoid()` becomes an `id` argument. Preserving `Consistent` needs that id
  to be fresh.
- `Math.random()` becomes a cover index below four.

`localStorage` becomes the field `persisted: Option<SharedState>`. `None`
stands for a slot from which `getSharedState` falls back to the empty state.

Four behaviours of the code are easy to misread:

- `createRoom`'s code may contain `_` and `-`. nanoid's alphabet is URL-safe,
  not just alphanumeric (`store.ts:84`).
- `joinRoom` with a code that is not the stored one sets only the room code,
  the user name and `isHost`. The tab's queue and song playing stay as they
  were; they are not emptied (`store.ts:99-101`).
- A hyphenated query is split at every hyphen. The title is the text between
  the first hyphen and the next one (or the end), so anything after a second
  hyphen is dropped (`store.ts:123-125`).
- A vote for an id that is not in the queue is not a no-op. The queue is
  re-sorted and the slot is written all the same (`store.ts:157-194`). When the
  queue was already sorted, the state is unchanged (`Jukebox.VotedUnknownKeeps`).

## Model

| member | source | states |
|---|---|---|
| Text.ContainsSpec | store.ts:114 | `includes` is true exactly when the substring occurs at some offset |
| Text.Contains | store.ts:114 | `includes`, as a left-to-right scan; its meaning is given by `Text.ContainsSpec` |
| Text.ContainsChar | store.ts:122 | `includes('-')` is membership of the hyphen |
| Text.IndexOf | store.ts:123 | the position found holds the separator and none occurs before it |
| Text.Split | store.ts:123 | `split` yields at least one segment, and at least two when the separator occurs |
| Text.SplitSegments | store.ts:123 | no segment of a split contains the separator |
| Text.SplitJoin | store.ts:123 | joining the segments with the separator gives back the string |
| Text.SplitUnique | store.ts:123 | any separator-free segmentation is the one `split` returns (split inverts join) |
| Text.SplitFirstTwo | store.ts:123-125 | `parts[0]` is the text before the first separator; `parts[1]` is the text after it, up to the next separator or the end |
| Text.LeadingSpace | store.ts:124-125 | the length of the maximal white-space run at the start |
| Text.TrailingSpace | store.ts:124-125 | the length of the maximal white-space run at the end |
| Text.Trim | store.ts:124-125 | `trim`: the leading, then the trailing white-space run cut; its meaning is given by `Text.TrimSpec` |
| Text.TrimSpec | store.ts:124-125 | `trim` keeps an infix, cuts only white space on either side, and leaves no white space at either end |
| Text.TrimKeepsOut | store.ts:124-125 | a character absent from a string is absent from its trim |
| Text.TrimIdempotent | store.ts:124-125 | trimming twice is trimming once |
| Songs.ParseQuery | store.ts:113-129 | the query is kept as the URL exactly when it names a video host; otherwise the fallback URL is used; title and artist of a split contain no hyphen |
| Songs.FallbackIsYouTube | store.ts:128 | the fallback URL itself names a video host |
| Songs.ParseQueryHyphen | store.ts:122-128 | a hyphenated non-video query gives the trimmed text before the first hyphen as the artist and the trimmed next segment as the title |
| Songs.ParseQuerySplit | store.ts:122-128 | the same, stated with `split('-')[0]` and `[1]` |
| Songs.ParseQueryPlain | store.ts:118-128 | a query with neither a video host nor a hyphen is the title, with artist "Requested Track" |
| Songs.ParseQueryYouTube | store.ts:114-116 | a query naming a video host becomes title "YouTube Track", artist "YouTube", with the query itself as the URL |
| Songs.ParseArtistTitle | store.ts:121-126 | `a - x` reads as artist `a` and title `x` |
| Songs.ParseSingle | store.ts:118-120 | a one-character query that is not a hyphen is the title |
| Songs.ShortNotYouTube | store.ts:114 | a query shorter than the host names is no video link |
| Songs.NewSong | store.ts:131-141 | the new song is well formed, has one vote (the adder's), and carries the adder, "3:00", the id and the cover |
| Songs.RemoveAll | store.ts:174-185 | `filter(u => u !== username)`: never longer than its input; see `Songs.RemoveAllMembers` and `Songs.RemoveAllNoDup` |
| Songs.RemoveAllMembers | store.ts:174 | the filter keeps exactly the other users |
| Songs.RemoveAllLast | store.ts:174-177 | filtering a user out of a list that ends with their only entry gives the list without it |
| Songs.RemoveAllAbsent | store.ts:174 | filtering out an absent user changes nothing |
| Songs.RemoveAllNoDup | store.ts:174 | filtering keeps voters distinct and removes exactly one entry when present |
| Songs.ApplyVote | store.ts:160-189 | only `votes` and `votedBy` change |
| Songs.UpVoteToggles | store.ts:171-178 | an up-vote flips the user's membership, leaves other voters alone, and moves the count by one in the matching direction |
| Songs.UpVoteTwice | store.ts:171-178 | two up-votes restore the count and the voters, and restore the song itself when the user had not voted |
| Songs.DownVoteWithdraws | store.ts:179-187 | a down-vote never adds: it changes nothing when the user has not voted, and otherwise equals the up-toggle |
| Songs.VotePreservesWellFormed | store.ts:168-189 | voting keeps `votes == |votedBy|` with distinct voters, so the count stays non-negative |
| Songs.UpVotesParity | store.ts:171-178 | after `n` toggles the user's vote is active exactly when the parity of `n` flipped it, and the count moved by that vote |
| Songs.UpVotesWellFormed | store.ts:171-178 | any number of toggles keeps the song well formed and its count non-negative |
| Songs.NewSongToggles | store.ts:136-140 | after `n` toggles of a new song, the adder leaves 1 vote (`n` even) or 0 (`n` odd); any other user leaves 1 or 2 |
| Queue.InsertByVotes | store.ts:146 | one insertion step of the stable sort; see `Queue.InsertPermutes`, `Queue.InsertSorted`, `Queue.InsertPosition` and `Queue.InsertStable` |
| Queue.SortByVotes | store.ts:146-190 | `sort((a, b) => b.votes - a.votes)` as a stable insertion sort; see `Queue.SortSpec` and `Queue.SortStable` |
| Queue.InsertPermutes | store.ts:146 | insertion adds exactly the new song |
| Queue.InsertSorted | store.ts:146 | insertion into a sorted queue keeps it sorted |
| Queue.SortSpec | store.ts:146 | the sort yields a descending-by-votes permutation of its input |
| Queue.SortSorted | store.ts:146 | the sort yields a descending-by-votes queue |
| Queue.SortPermutes | store.ts:146 | the sort keeps the multiset of songs |
| Queue.SortAppend | store.ts:146 | sorting a queue with a song appended inserts that song into the sorted queue |
| Queue.InsertAfterAll | store.ts:146 | a song with no more votes than any queued song goes to the end |
| Queue.SortSortedIdentity | store.ts:146 | sorting a sorted queue changes nothing |
| Queue.InsertPosition | store.ts:146 | a song goes in right after every song with at least its votes and right before every song with fewer |
| Queue.SortedCons | store.ts:146 | a song with at least every queued song's votes can go in front |
| Queue.WithVotesAppend | store.ts:146 | the songs with a given count in a concatenation are those of each part, in order |
| Queue.InsertStable | store.ts:146 | insertion puts the new song after every song with the same votes |
| Queue.SortStable | store.ts:146 | the sort is stable: for every count, the songs with that count keep their order |
| Queue.AddToSorted | store.ts:146 | adding a song to a sorted queue inserts it at its vote position and moves nothing else |
| Queue.AddOneVoteLast | store.ts:136-146 | a one-vote song added to a sorted queue of songs with at least one vote goes last |
| Queue.IdsOf | store.ts:158 | the ids of the queue, position by position |
| Queue.InsertIds | store.ts:146 | insertion adds exactly the new song's id |
| Queue.SortIds | store.ts:146 | the sort keeps the multiset of ids |
| Queue.VoteOn | store.ts:158-189 | the callback of `queue.map`: the vote for the target id, any other song unchanged; see `Queue.MarkVoteSpec` |
| Queue.MarkVote | store.ts:157-189 | `queue.map(...)`: keeps the length; see `Queue.MarkVoteSpec` |
| Queue.MarkVoteSpec | store.ts:157-189 | the map applies the vote to the songs with the target id and keeps every other song in its place |
| Queue.MarkAppend | store.ts:157-189 | the map distributes over concatenation |
| Queue.MarkInsert | store.ts:146-190 | mapping after an insertion gives the mapped queue plus the mapped song |
| Queue.MarkSort | store.ts:146-190 | mapping a sorted queue gives the same songs as mapping the unsorted one |
| Queue.MarkIds | store.ts:157-189 | the map keeps the ids in order |
| Queue.MarkWellFormed | store.ts:157-189 | the map keeps every song well formed |
| Queue.SortWellFormed | store.ts:146 | the sort keeps every song well formed |
| Queue.VoteQueue | store.ts:157-190 | the map followed by the sort; see `Queue.VoteQueueSpec` and `Queue.VoteUnknownId` |
| Queue.VoteQueueSpec | store.ts:157-190 | the new queue is sorted, is a permutation of the mapped queue, keeps the ids and keeps songs well formed |
| Queue.VoteUnknownId | store.ts:157-190 | a vote for an id in no song keeps the songs, and leaves a sorted queue as it was |
| Queue.VoteTwiceRestoresSongs | store.ts:157-190 | two up-votes by a user who had not voted give back the songs of the queue |
| Queue.VoteTwiceMayReorder | store.ts:157-190 | but not their order: the re-sort after the first vote can move the target ahead of an equal song for good |
| Jukebox.LoadShared | store.ts:47-55 | `getSharedState`: the stored state, or the empty one when nothing is stored; see `Jukebox.EmptyConsistent` |
| Jukebox.Added | store.ts:143-147 | the shared state after `addSong`; see `Jukebox.AddedSpec` and `Jukebox.AddedKeepsConsistent` |
| Jukebox.Voted | store.ts:153-195 | the shared state after a signed-in user's `vote`; see `Jukebox.VotedKeepsConsistent`, `Jukebox.VotedChangesTarget` and `Jukebox.VotedUnknownKeeps` |
| Jukebox.Advanced | store.ts:197-212 | the shared state after `playNext`; see `Jukebox.AdvancedSpec` and `Jukebox.AdvancedKeepsConsistent` |
| Jukebox.EmptyConsistent | store.ts:54 | the empty state satisfies the invariant |
| Jukebox.UniqueIdsAt | store.ts:131-133 | without repeated ids, distinct positions hold distinct ids |
| Jukebox.AddedSpec | store.ts:143-147 | adding keeps the room and the song playing, adds exactly the song, keeps the queue sorted and places the song by its votes |
| Jukebox.AddedIds | store.ts:143-147 | adding adds the song's id to the ids of the queue |
| Jukebox.AddedWellFormed | store.ts:143-147 | adding a well-formed song keeps every song well formed |
| Jukebox.AddedUnique | store.ts:132-146 | adding a song with a new id keeps the ids distinct |
| Jukebox.AddedAbsent | store.ts:132-146 | an id that is neither queued nor the new song's stays out of the queue |
| Jukebox.AddedKeepsConsistent | store.ts:104-151 | adding a well-formed song with a fresh id keeps the invariant |
| Jukebox.AddThreeInOrder | store.ts:104-151 | `A - X`, `B - Y`, `Z` added to an empty room queue in that order, with the parsed artists and titles and one vote each |
| Jukebox.YouTubeAddThenPlay | store.ts:82-212 | in a new room, adding `http://youtu.be/xyz` and playing next gives a song titled "YouTube Track" by "YouTube" with the link as URL, playing, and an empty queue |
| Jukebox.ThreeParses | store.ts:113-129 | how `A - X`, `B - Y` and `Z` are parsed |
| Jukebox.OneVoteSongsInOrder | store.ts:143-147 | one-vote songs added in turn stay in insertion order |
| Jukebox.AddOneVoteToOneVotes | store.ts:143-147 | a one-vote song added to one-vote songs goes last |
| Jukebox.VotedKeepsConsistent | store.ts:153-195 | a vote keeps the invariant |
| Jukebox.VotedChangesTarget | store.ts:157-190 | in a consistent state, a vote for a queued song gives a permutation of the queue with just that song voted on |
| Jukebox.VotedUnknownKeeps | store.ts:157-194 | in a consistent state, a vote for an unknown id changes nothing |
| Jukebox.AdvancedSpec | store.ts:197-212 | an empty queue changes nothing; otherwise the song with the most votes is played, no song is lost or made up, and the played song is no longer queued |
| Jukebox.AdvancedKeepsConsistent | store.ts:197-212 | playing the next song keeps the invariant |
| Jukebox.Store.constructor | store.ts:70-74 | initial shared fields are what the slot holds (or the empty state); guest with no name |
| Jukebox.Store.SyncFromStorage | store.ts:76-78 | the shared fields become the snapshot; local fields and the slot are untouched |
| Jukebox.Store.ExternalWrite | store.ts:57-59 | another tab's `setSharedState`: the slot holds the state written; this tab's fields stay as they were |
| Jukebox.Store.SetRoomCode | store.ts:80 | only the room code changes; nothing is written |
| Jukebox.Store.CreateRoom | store.ts:82-90 | an empty room under the code, this tab hosting under the name, written to the slot, consistent |
| Jukebox.Store.JoinRoom | store.ts:92-102 | the stored room is adopted when its code matches; otherwise only the code changes. Guest status and the name are set; nothing is written |
| Jukebox.Store.AddSong | store.ts:104-151 | the new state is `Added` with the parsed song by the current user, written to the slot; it stays consistent given a fresh id |
| Jukebox.Store.Vote | store.ts:153-195 | with no user name nothing changes; otherwise the new state is `Voted`, written to the slot; the invariant is kept |
| Jukebox.Store.PlayNext | store.ts:197-212 | the new state is `Advanced`; the slot is written exactly when the queue was non-empty; the invariant is kept |
| Jukebox.Store.SkipSong | store.ts:214-216 | the same as `PlayNext` |

## Left out

- Browser storage, JSON, notifications: `localStorage.getItem`/`setItem`,
  `JSON.stringify`/`JSON.parse`, the `StorageEvent` dispatch and the
  `try`/`catch` logging are not modelled as such. The slot holds the state
  value itself, so the JSON round trip is taken to be the identity.
- Empty or unreadable stored items: an empty stored string, or an item that
  cannot be parsed, behaves like an absent one, so it is modelled as `None`.
- Failed writes: a write that throws (quota, storage unavailable) is not
  modelled. The slot always receives the new state.
- The cross-tab listener: the listener in `App.tsx` that calls
  `syncFromStorage`, zustand's `set` merge and subscription machinery, and
  the React components (`Home.tsx`, `Room.tsx`, `Player.tsx`, `SongCard.tsx`,
  `AddSongForm.tsx`) are not part of this model. Concurrent writers across
  tabs (last writer wins) are not modelled.
- Randomness: `nanoid` and `Math.random` are parameters, as described above.
  That the generated id is fresh is an assumption under which `AddSong`
  keeps the invariant, not something the model can show.
- Jukebox.Store.AddSong: the title, artist and URL are first set to the
  query, "Unknown Artist" and the query. Every branch sets the title and
  artist again. The video-link branch keeps the URL as the query and the
  other branch replaces it. Only the final values are modelled.
- Text.Trim and Text.Contains: strings are sequences of Dafny characters
  (Unicode scalar values), not UTF-16 code units. `trim`'s white-space set
  is the ECMAScript WhiteSpace and LineTerminator set, listed explicitly.
- Queue.SortByVotes: `Array.prototype.sort` is modelled as a stable insertion
  sort with the source's comparator. It is proved sorted, a permutation and
  stable. That every stable sort returns this same result is not proved.
- Song.votes: modelled as an unbounded integer. JavaScript numbers are
  doubles, which is exact for any count the store can reach.
- Jukebox.Store.SyncFromStorage: the slot is updated only by this tab's own
  writes and by `ExternalWrite`. Syncing does not touch it. A write by
  another tab is therefore modelled as `ExternalWrite` followed by
  `SyncFromStorage`. A sync whose snapshot differs from the slot leaves the
  field stale, and a later `JoinRoom` then reads that stale slot.
