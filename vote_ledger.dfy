/**
 * The Vote collection as the vote controller sees it: a sequence of vote
 * documents (backend/models/Vote.js). The schema declares no unique index, so
 * nothing in the store itself prevents two documents for the same
 * (user, itemType, itemId); `UniqueVotes` is the invariant the controller is
 * meant to keep. The three queries the controller issues are modelled here:
 * `findOne` (FindVote), `countDocuments` (CountVotes) and `deleteOne` (RemoveAt).
 */
module VoteLedger {
  import opened Wrappers
  import opened VoteKinds

  type UserId = string
  type ItemId = string

  /** One vote document; every field is required by the schema. */
  datatype Vote = Vote(user: UserId, itemType: ItemType, itemId: ItemId, voteType: VoteType)

  /** The tuple a user may hold at most one vote for. */
  datatype VoteKey = VoteKey(user: UserId, itemType: ItemType, itemId: ItemId)

  function KeyOf(v: Vote): VoteKey {
    VoteKey(v.user, v.itemType, v.itemId)
  }

  /** No two documents share a (user, itemType, itemId) tuple. */
  predicate UniqueVotes(votes: seq<Vote>) {
    forall i, j :: 0 <= i < j < |votes| ==> KeyOf(votes[i]) != KeyOf(votes[j])
  }

  /** `Vote.findOne({ user, itemType, itemId })`: the position of the first matching document. */
  function FindVote(votes: seq<Vote>, key: VoteKey): (r: Option<nat>)
    ensures r.Some? ==> r.value < |votes| && KeyOf(votes[r.value]) == key
    ensures r.Some? ==> forall j :: 0 <= j < r.value ==> KeyOf(votes[j]) != key
    ensures r.None? <==> forall j :: 0 <= j < |votes| ==> KeyOf(votes[j]) != key
  {
    if |votes| == 0 then None
    else if KeyOf(votes[0]) == key then Some(0)
    else
      match FindVote(votes[1..], key)
      case None => None
      case Some(i) => Some(i + 1)
  }

  /** `existingVote.deleteOne()`: the collection without the document at `i`. */
  function RemoveAt(votes: seq<Vote>, i: nat): (r: seq<Vote>)
    requires i < |votes|
    ensures |r| == |votes| - 1
    ensures forall j :: 0 <= j < i ==> r[j] == votes[j]
    ensures forall j :: i <= j < |r| ==> r[j] == votes[j + 1]
  {
    votes[..i] + votes[i + 1..]
  }

  /** Does `v` belong to the query `{ itemType, itemId, type: t }`? */
  predicate Counts(v: Vote, itemType: ItemType, itemId: ItemId, t: VoteType) {
    v.itemType == itemType && v.itemId == itemId && v.voteType == t
  }

  /** `Vote.countDocuments({ itemType, itemId, type })`. */
  function CountVotes(votes: seq<Vote>, itemType: ItemType, itemId: ItemId, t: VoteType): (n: nat)
    ensures n <= |votes|
  {
    if |votes| == 0 then 0
    else (if Counts(votes[0], itemType, itemId, t) then 1 else 0) + CountVotes(votes[1..], itemType, itemId, t)
  }

  /** The net vote total of an item, as recomputed after every vote. */
  function NetScore(votes: seq<Vote>, itemType: ItemType, itemId: ItemId): (score: int)
    ensures score <= CountVotes(votes, itemType, itemId, Upvote)
    ensures score + CountVotes(votes, itemType, itemId, Downvote) >= 0
  {
    CountVotes(votes, itemType, itemId, Upvote) - CountVotes(votes, itemType, itemId, Downvote)
  }

  /** The count is zero exactly when no document belongs to the query. */
  lemma {:induction false} CountZero(votes: seq<Vote>, itemType: ItemType, itemId: ItemId, t: VoteType)
    ensures CountVotes(votes, itemType, itemId, t) == 0
        <==> forall j :: 0 <= j < |votes| ==> !Counts(votes[j], itemType, itemId, t)
  {
    if |votes| > 0 {
      CountZero(votes[1..], itemType, itemId, t);
      assert forall j :: 1 <= j < |votes| ==> votes[j] == votes[1..][j - 1];
    }
  }

  /** Counting distributes over concatenation. */
  lemma {:induction false} CountAppend(a: seq<Vote>, b: seq<Vote>, itemType: ItemType, itemId: ItemId, t: VoteType)
    ensures CountVotes(a + b, itemType, itemId, t) == CountVotes(a, itemType, itemId, t) + CountVotes(b, itemType, itemId, t)
  {
    if |a| == 0 {
      assert a + b == b;
    } else {
      assert (a + b)[1..] == a[1..] + b;
      CountAppend(a[1..], b, itemType, itemId, t);
    }
  }

  /** Removing a document lowers exactly its own query's count, by one. */
  lemma CountRemoveAt(votes: seq<Vote>, i: nat, itemType: ItemType, itemId: ItemId, t: VoteType)
    requires i < |votes|
    ensures CountVotes(RemoveAt(votes, i), itemType, itemId, t)
         == CountVotes(votes, itemType, itemId, t) - (if Counts(votes[i], itemType, itemId, t) then 1 else 0)
  {
    assert votes == votes[..i] + [votes[i]] + votes[i + 1..];
    CountAppend(votes[..i] + [votes[i]], votes[i + 1..], itemType, itemId, t);
    CountAppend(votes[..i], [votes[i]], itemType, itemId, t);
    CountAppend(votes[..i], votes[i + 1..], itemType, itemId, t);
  }

  /** Replacing one document changes the counts by the old one leaving and the new one arriving. */
  lemma CountUpdate(votes: seq<Vote>, i: nat, v: Vote, itemType: ItemType, itemId: ItemId, t: VoteType)
    requires i < |votes|
    ensures CountVotes(votes[i := v], itemType, itemId, t)
         == CountVotes(votes, itemType, itemId, t)
            - (if Counts(votes[i], itemType, itemId, t) then 1 else 0)
            + (if Counts(v, itemType, itemId, t) then 1 else 0)
  {
    assert votes == votes[..i] + [votes[i]] + votes[i + 1..];
    assert votes[i := v] == votes[..i] + [v] + votes[i + 1..];
    CountAppend(votes[..i] + [votes[i]], votes[i + 1..], itemType, itemId, t);
    CountAppend(votes[..i], [votes[i]], itemType, itemId, t);
    CountAppend(votes[..i] + [v], votes[i + 1..], itemType, itemId, t);
    CountAppend(votes[..i], [v], itemType, itemId, t);
  }

  /** Appending a document whose key is new keeps the collection unique. */
  lemma AppendKeepsUnique(votes: seq<Vote>, v: Vote)
    requires UniqueVotes(votes)
    requires FindVote(votes, KeyOf(v)) == None
    ensures UniqueVotes(votes + [v])
  {
  }

  /** Removing a document keeps the collection unique. */
  lemma RemoveKeepsUnique(votes: seq<Vote>, i: nat)
    requires UniqueVotes(votes)
    requires i < |votes|
    ensures UniqueVotes(RemoveAt(votes, i))
  {
    var r := RemoveAt(votes, i);
    forall a, b | 0 <= a < b < |r|
      ensures KeyOf(r[a]) != KeyOf(r[b])
    {
      var a' := if a < i then a else a + 1;
      var b' := if b < i then b else b + 1;
      assert r[a] == votes[a'] && r[b] == votes[b'];
    }
  }

  /** Deleting the document at `i` keeps every document under another key, and brings in none. */
  lemma RemoveAtKeepsOthers(votes: seq<Vote>, i: nat, key: VoteKey)
    requires i < |votes| && KeyOf(votes[i]) == key
    ensures forall v :: v in votes && KeyOf(v) != key ==> v in RemoveAt(votes, i)
    ensures forall v :: v in RemoveAt(votes, i) ==> v in votes
  {
    var r := RemoveAt(votes, i);
    forall v | v in votes && KeyOf(v) != key
      ensures v in r
    {
      var j :| 0 <= j < |votes| && votes[j] == v;
      if j < i {
        assert r[j] == v;
      } else {
        assert r[j - 1] == v;
      }
    }
    forall v | v in r
      ensures v in votes
    {
      var j :| 0 <= j < |r| && r[j] == v;
      if j < i {
        assert votes[j] == v;
      } else {
        assert votes[j + 1] == v;
      }
    }
  }

  /** Redirecting the document at `i` keeps every document under another key, and brings in none. */
  lemma RedirectKeepsOthers(votes: seq<Vote>, i: nat, t: VoteType, key: VoteKey)
    requires i < |votes| && KeyOf(votes[i]) == key
    ensures forall v :: v in votes && KeyOf(v) != key ==> v in votes[i := votes[i].(voteType := t)]
    ensures forall v :: v in votes[i := votes[i].(voteType := t)] && KeyOf(v) != key ==> v in votes
  {
    var r := votes[i := votes[i].(voteType := t)];
    forall v | v in votes && KeyOf(v) != key
      ensures v in r
    {
      var j :| 0 <= j < |votes| && votes[j] == v;
      assert r[j] == v;
    }
    forall v | v in r && KeyOf(v) != key
      ensures v in votes
    {
      var j :| 0 <= j < |r| && r[j] == v;
      assert votes[j] == v;
    }
  }

  /** Changing only the direction of a document keeps the collection unique. */
  lemma RedirectKeepsUnique(votes: seq<Vote>, i: nat, t: VoteType)
    requires UniqueVotes(votes)
    requires i < |votes|
    ensures UniqueVotes(votes[i := votes[i].(voteType := t)])
  {
    var r := votes[i := votes[i].(voteType := t)];
    forall a, b | 0 <= a < b < |r|
      ensures KeyOf(r[a]) != KeyOf(r[b])
    {
      assert KeyOf(r[a]) == KeyOf(votes[a]) && KeyOf(r[b]) == KeyOf(votes[b]);
    }
  }

  /** In a unique collection, the document found for a key is the only one with that key. */
  lemma FoundIsOnly(votes: seq<Vote>, key: VoteKey)
    requires UniqueVotes(votes)
    requires FindVote(votes, key).Some?
    ensures forall j :: 0 <= j < |votes| && KeyOf(votes[j]) == key ==> j == FindVote(votes, key).value
  {
  }
}
