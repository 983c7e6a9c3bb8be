/**
 * What `voteOnItem` promises across one or several requests
 * (backend/controllers/voteController.js:38-90): uniqueness and score
 * consistency are kept, submitting the same direction twice undoes the first
 * request, a flip followed by a flip back restores everything, and every
 * transition moves reputations by the point table.
 */
module VoteProperties {
  import opened Wrappers
  import opened VoteKinds
  import opened VoteLedger
  import opened Reputation
  import opened VoteController

  /** A request with well-formed parameters on an item whose author exists goes down the successful path. */
  lemma StepIsRecord(s: Store, voter: UserId, k: ItemType, itemId: ItemId, t: VoteType)
    requires ItemRef(k, itemId) in s.items && s.items[ItemRef(k, itemId)].author in s.users
    ensures Step(s, voter, ItemTypeName(k), itemId, VoteTypeName(t))
         == (Record(s, voter, ItemRef(k, itemId), t).0, Success(Record(s, voter, ItemRef(k, itemId), t).1))
  {
    ItemTypeNameRoundTrip(k);
    VoteTypeNameRoundTrip(t);
  }

  /** Every request, successful or not, keeps the ledger unique and the cached scores consistent. */
  lemma StepKeepsInvariants(s: Store, voter: UserId, itemTypeName: string, itemId: ItemId, typeName: string)
    requires UniqueVotes(s.votes) && ScoreConsistent(s)
    ensures UniqueVotes(Step(s, voter, itemTypeName, itemId, typeName).0.votes)
    ensures ScoreConsistent(Step(s, voter, itemTypeName, itemId, typeName).0)
  {
    var r := Step(s, voter, itemTypeName, itemId, typeName);
    if r.1.Success? {
      var k, t := ParseItemType(itemTypeName).value, ParseVoteType(typeName).value;
      RecordKeepsInvariants(s, voter, ItemRef(k, itemId), t);
    }
  }

  /** The vote, if any, that `voter` holds on the item. */
  function HeldVote(votes: seq<Vote>, voter: UserId, k: ItemType, itemId: ItemId): Option<VoteType> {
    match FindVote(votes, VoteKey(voter, k, itemId))
    case None => None
    case Some(i) => Some(votes[i].voteType)
  }

  /** Appending a vote for a key that had none makes it the vote found for that key. */
  lemma FindAfterAppend(votes: seq<Vote>, v: Vote)
    requires FindVote(votes, KeyOf(v)).None?
    ensures FindVote(votes + [v], KeyOf(v)) == Some(|votes|)
  {
    assert (votes + [v])[|votes|] == v;
  }

  /** Changing a direction in place does not move the vote found for any key. */
  lemma FindAfterRedirect(votes: seq<Vote>, i: nat, t: VoteType, key: VoteKey)
    requires i < |votes|
    ensures FindVote(votes[i := votes[i].(voteType := t)], key) == FindVote(votes, key)
  {
    var votes' := votes[i := votes[i].(voteType := t)];
    assert forall j :: 0 <= j < |votes| ==> KeyOf(votes'[j]) == KeyOf(votes[j]);
    var a, b := FindVote(votes', key), FindVote(votes, key);
    if a.Some? && b.Some? {
      assert !(a.value < b.value) && !(b.value < a.value);
    }
  }

  /**
   * A first vote creates the document and moves every reputation by the
   * point table; the returned counts include it.
   */
  lemma FirstVoteEffects(s: Store, voter: UserId, k: ItemType, itemId: ItemId, t: VoteType)
    requires ItemRef(k, itemId) in s.items && s.items[ItemRef(k, itemId)].author in s.users
    requires HeldVote(s.votes, voter, k, itemId).None?
    ensures var r := Step(s, voter, ItemTypeName(k), itemId, VoteTypeName(t));
      var author := s.items[ItemRef(k, itemId)].author;
      && r.1.Success?
      && r.0.votes == s.votes + [Vote(voter, k, itemId, t)]
      && HeldVote(r.0.votes, voter, k, itemId) == Some(t)
      && r.0.users.Keys == s.users.Keys
      && (forall w :: w in s.users ==>
            ReputationOf(r.0.users, w) == ReputationOf(s.users, w) + PointsFor(w, voter, author, t, k))
  {
    var author := s.items[ItemRef(k, itemId)].author;
    StepIsRecord(s, voter, k, itemId, t);
    FindAfterAppend(s.votes, Vote(voter, k, itemId, t));
    VoteEffectIsTable(s.users, voter, author, t, k, Add);
  }

  /** A user downvoting their own item for the first time loses 2 points and nobody else changes. */
  lemma SelfDownvote(s: Store, voter: UserId, k: ItemType, itemId: ItemId)
    requires ItemRef(k, itemId) in s.items && s.items[ItemRef(k, itemId)].author == voter && voter in s.users
    requires HeldVote(s.votes, voter, k, itemId).None?
    ensures var r := Step(s, voter, ItemTypeName(k), itemId, VoteTypeName(Downvote));
      && r.1.Success?
      && ReputationOf(r.0.users, voter) == ReputationOf(s.users, voter) - 2
      && forall w :: w != voter ==> ReputationOf(r.0.users, w) == ReputationOf(s.users, w)
  {
    FirstVoteEffects(s, voter, k, itemId, Downvote);
  }

  /** A first vote: the document is appended and its points are given. */
  lemma StepOnCreate(s: Store, voter: UserId, k: ItemType, itemId: ItemId, t: VoteType)
    requires ItemRef(k, itemId) in s.items && s.items[ItemRef(k, itemId)].author in s.users
    requires HeldVote(s.votes, voter, k, itemId).None?
    ensures var ref := ItemRef(k, itemId);
      var r := Step(s, voter, ItemTypeName(k), itemId, VoteTypeName(t));
      && r.1.Success?
      && r.0.votes == s.votes + [Vote(voter, k, itemId, t)]
      && r.0.users == VoteEffect(s.users, voter, s.items[ref].author, t, k, Add)
  {
    StepIsRecord(s, voter, k, itemId, t);
  }

  /** Resubmitting the direction held: the document is deleted and its points are taken back. */
  lemma StepOnToggle(s: Store, voter: UserId, k: ItemType, itemId: ItemId, t: VoteType)
    requires ItemRef(k, itemId) in s.items && s.items[ItemRef(k, itemId)].author in s.users
    requires HeldVote(s.votes, voter, k, itemId) == Some(t)
    ensures var ref := ItemRef(k, itemId);
      var r := Step(s, voter, ItemTypeName(k), itemId, VoteTypeName(t));
      && r.1.Success?
      && r.0.votes == RemoveAt(s.votes, FindVote(s.votes, VoteKey(voter, k, itemId)).value)
      && r.0.users == VoteEffect(s.users, voter, s.items[ref].author, t, k, Remove)
  {
    StepIsRecord(s, voter, k, itemId, t);
  }

  /**
   * Submitting the same direction twice, starting with no vote: the second
   * request deletes the vote the first created, and every reputation is back
   * to its value before the first request.
   */
  lemma ToggleTwiceRestores(s: Store, voter: UserId, k: ItemType, itemId: ItemId, t: VoteType)
    requires ItemRef(k, itemId) in s.items && s.items[ItemRef(k, itemId)].author in s.users
    requires HeldVote(s.votes, voter, k, itemId).None?
    ensures var first := Step(s, voter, ItemTypeName(k), itemId, VoteTypeName(t));
      var second := Step(first.0, voter, ItemTypeName(k), itemId, VoteTypeName(t));
      && first.1.Success? && second.1.Success?
      && HeldVote(first.0.votes, voter, k, itemId) == Some(t)
      && second.0.votes == s.votes
      && second.0.users.Keys == s.users.Keys
      && (forall w :: ReputationOf(second.0.users, w) == ReputationOf(s.users, w))
  {
    var ref := ItemRef(k, itemId);
    var author := s.items[ref].author;
    var v := Vote(voter, k, itemId, t);
    StepOnCreate(s, voter, k, itemId, t);
    var first := Step(s, voter, ItemTypeName(k), itemId, VoteTypeName(t));
    FindAfterAppend(s.votes, v);
    VoteEffectIsTable(s.users, voter, author, t, k, Add);
    StepOnToggle(first.0, voter, k, itemId, t);
    assert RemoveAt(s.votes + [v], |s.votes|) == s.votes;
    VoteEffectRoundTrip(s.users, voter, author, t, k);
  }

  /** Rescoring an item and then rescoring it back to its old score leaves the items as they were. */
  lemma RescoreTwice(items: map<ItemRef, Item>, ref: ItemRef, a: int, b: int)
    requires ref in items && items[ref].score == b
    ensures var once := items[ref := items[ref].(score := a)];
      once[ref := once[ref].(score := b)] == items
  {
    var once := items[ref := items[ref].(score := a)];
    assert once[ref].(score := b) == items[ref];
  }

  /** After the same two requests, an item whose score agreed with the ledger has its old score back. */
  lemma ToggleTwiceKeepsScore(s: Store, voter: UserId, k: ItemType, itemId: ItemId, t: VoteType)
    requires ItemRef(k, itemId) in s.items && s.items[ItemRef(k, itemId)].author in s.users
    requires HeldVote(s.votes, voter, k, itemId).None?
    requires ScoreConsistent(s)
    ensures var first := Step(s, voter, ItemTypeName(k), itemId, VoteTypeName(t));
      Step(first.0, voter, ItemTypeName(k), itemId, VoteTypeName(t)).0.items == s.items
  {
    ToggleTwiceRestores(s, voter, k, itemId, t);
    var first := Step(s, voter, ItemTypeName(k), itemId, VoteTypeName(t));
    var second := Step(first.0, voter, ItemTypeName(k), itemId, VoteTypeName(t));
    RescoreTwice(s.items, ItemRef(k, itemId), first.1.value.score, second.1.value.score);
  }

  /** A flip: the document is redirected in place, the old points are taken back and the new ones given. */
  lemma StepOnFlip(s: Store, voter: UserId, k: ItemType, itemId: ItemId, t: VoteType)
    requires ItemRef(k, itemId) in s.items && s.items[ItemRef(k, itemId)].author in s.users
    requires HeldVote(s.votes, voter, k, itemId) == Some(Opposite(t))
    ensures var ref := ItemRef(k, itemId);
      var author := s.items[ref].author;
      var i := FindVote(s.votes, VoteKey(voter, k, itemId)).value;
      var r := Step(s, voter, ItemTypeName(k), itemId, VoteTypeName(t));
      && r.1.Success?
      && r.0.votes == s.votes[i := s.votes[i].(voteType := t)]
      && r.0.users == VoteEffect(VoteEffect(s.users, voter, author, Opposite(t), k, Remove), voter, author, t, k, Add)
      && FindVote(r.0.votes, VoteKey(voter, k, itemId)) == Some(i)
  {
    var i := FindVote(s.votes, VoteKey(voter, k, itemId)).value;
    StepIsRecord(s, voter, k, itemId, t);
    FindAfterRedirect(s.votes, i, t, VoteKey(voter, k, itemId));
  }

  /** Redirecting a document and redirecting it back leaves the ledger as it was. */
  lemma RedirectBack(votes: seq<Vote>, i: nat, u: VoteType)
    requires i < |votes|
    ensures var once := votes[i := votes[i].(voteType := u)];
      once[i := once[i].(voteType := votes[i].voteType)] == votes
  {
  }

  /**
   * A flip followed by a flip back (up, down, up or down, up, down): the
   * document is back to its direction and every reputation is back.
   */
  lemma FlipTwiceRestores(s: Store, voter: UserId, k: ItemType, itemId: ItemId, t: VoteType)
    requires ItemRef(k, itemId) in s.items && s.items[ItemRef(k, itemId)].author in s.users
    requires HeldVote(s.votes, voter, k, itemId) == Some(t)
    ensures var first := Step(s, voter, ItemTypeName(k), itemId, VoteTypeName(Opposite(t)));
      var second := Step(first.0, voter, ItemTypeName(k), itemId, VoteTypeName(t));
      && first.1.Success? && second.1.Success?
      && HeldVote(first.0.votes, voter, k, itemId) == Some(Opposite(t))
      && |first.0.votes| == |s.votes|
      && second.0.votes == s.votes
      && second.0.users.Keys == s.users.Keys
      && (forall w :: ReputationOf(second.0.users, w) == ReputationOf(s.users, w))
  {
    var ref := ItemRef(k, itemId);
    var author := s.items[ref].author;
    var u := Opposite(t);
    assert Opposite(u) == t;
    StepOnFlip(s, voter, k, itemId, u);
    var first := Step(s, voter, ItemTypeName(k), itemId, VoteTypeName(u));
    VoteEffectIsTable(s.users, voter, author, t, k, Remove);
    VoteEffectIsTable(VoteEffect(s.users, voter, author, t, k, Remove), voter, author, u, k, Add);
    StepOnFlip(first.0, voter, k, itemId, t);
    RedirectBack(s.votes, FindVote(s.votes, VoteKey(voter, k, itemId)).value, u);
    FlipBackRestores(s.users, voter, author, t, u, k);
  }

  /** After the same two requests, an item whose score agreed with the ledger has its old score back. */
  lemma FlipTwiceKeepsScore(s: Store, voter: UserId, k: ItemType, itemId: ItemId, t: VoteType)
    requires ItemRef(k, itemId) in s.items && s.items[ItemRef(k, itemId)].author in s.users
    requires HeldVote(s.votes, voter, k, itemId) == Some(t)
    requires ScoreConsistent(s)
    ensures var first := Step(s, voter, ItemTypeName(k), itemId, VoteTypeName(Opposite(t)));
      Step(first.0, voter, ItemTypeName(k), itemId, VoteTypeName(t)).0.items == s.items
  {
    FlipTwiceRestores(s, voter, k, itemId, t);
    var first := Step(s, voter, ItemTypeName(k), itemId, VoteTypeName(Opposite(t)));
    var second := Step(first.0, voter, ItemTypeName(k), itemId, VoteTypeName(t));
    RescoreTwice(s.items, ItemRef(k, itemId), first.1.value.score, second.1.value.score);
  }

  /**
   * A flip reverses the old vote's points in full and then applies the new
   * vote's: reputations move by the difference of the two table entries.
   */
  lemma FlipEffects(s: Store, voter: UserId, k: ItemType, itemId: ItemId, t: VoteType)
    requires ItemRef(k, itemId) in s.items && s.items[ItemRef(k, itemId)].author in s.users
    requires HeldVote(s.votes, voter, k, itemId) == Some(Opposite(t))
    ensures var r := Step(s, voter, ItemTypeName(k), itemId, VoteTypeName(t));
      var author := s.items[ItemRef(k, itemId)].author;
      && r.1.Success?
      && HeldVote(r.0.votes, voter, k, itemId) == Some(t)
      && (forall w :: w in s.users ==>
            ReputationOf(r.0.users, w)
              == ReputationOf(s.users, w) - PointsFor(w, voter, author, Opposite(t), k) + PointsFor(w, voter, author, t, k))
  {
    var author := s.items[ItemRef(k, itemId)].author;
    var key := VoteKey(voter, k, itemId);
    var i := FindVote(s.votes, key).value;
    StepIsRecord(s, voter, k, itemId, t);
    FindAfterRedirect(s.votes, i, t, key);
    var users1 := VoteEffect(s.users, voter, author, Opposite(t), k, Remove);
    VoteEffectIsTable(s.users, voter, author, Opposite(t), k, Remove);
    VoteEffectIsTable(users1, voter, author, t, k, Add);
  }

  /** Resubmitting the direction already held deletes the vote and takes its points back. */
  lemma ToggleOffEffects(s: Store, voter: UserId, k: ItemType, itemId: ItemId, t: VoteType)
    requires ItemRef(k, itemId) in s.items && s.items[ItemRef(k, itemId)].author in s.users
    requires UniqueVotes(s.votes)
    requires HeldVote(s.votes, voter, k, itemId) == Some(t)
    ensures var r := Step(s, voter, ItemTypeName(k), itemId, VoteTypeName(t));
      var author := s.items[ItemRef(k, itemId)].author;
      && r.1.Success?
      && |r.0.votes| == |s.votes| - 1
      && HeldVote(r.0.votes, voter, k, itemId).None?
      && (forall w :: w in s.users ==>
            ReputationOf(r.0.users, w) == ReputationOf(s.users, w) - PointsFor(w, voter, author, t, k))
  {
    var author := s.items[ItemRef(k, itemId)].author;
    var key := VoteKey(voter, k, itemId);
    var i := FindVote(s.votes, key).value;
    StepIsRecord(s, voter, k, itemId, t);
    FoundIsOnly(s.votes, key);
    var r := RemoveAt(s.votes, i);
    forall j | 0 <= j < |r|
      ensures KeyOf(r[j]) != key
    {
      if j < i {
        assert r[j] == s.votes[j];
      } else {
        assert r[j] == s.votes[j + 1];
      }
    }
    VoteEffectIsTable(s.users, voter, author, t, k, Remove);
  }

  /** The upvote on the empty ledger: one upvote, and the author gains 5. */
  lemma ScenarioUpvote(s: Store, a: UserId, b: UserId, q: ItemId)
    requires s.votes == [] && a != b && a in s.users && b in s.users
    requires ItemRef(Question, q) in s.items && s.items[ItemRef(Question, q)].author == b
    ensures var r := Step(s, a, "question", q, "upvote");
      && r.1 == Success(VoteSummary(1, 1, 0))
      && r.0.votes == [Vote(a, Question, q, Upvote)]
      && ReputationOf(r.0.users, b) == ReputationOf(s.users, b) + 5
      && ReputationOf(r.0.users, a) == ReputationOf(s.users, a)
      && r.0.users.Keys == s.users.Keys && r.0.items[ItemRef(Question, q)].author == b
  {
    FirstVoteEffects(s, a, Question, q, Upvote);
  }

  /** The flip to a downvote: one downvote, the author's 5 points become -2, and the voter pays 1. */
  lemma ScenarioFlip(s: Store, a: UserId, b: UserId, q: ItemId)
    requires s.votes == [Vote(a, Question, q, Upvote)] && a != b && a in s.users && b in s.users
    requires ItemRef(Question, q) in s.items && s.items[ItemRef(Question, q)].author == b
    ensures var r := Step(s, a, "question", q, "downvote");
      && r.1 == Success(VoteSummary(-1, 0, 1))
      && r.0.votes == [Vote(a, Question, q, Downvote)]
      && ReputationOf(r.0.users, b) == ReputationOf(s.users, b) - 7
      && ReputationOf(r.0.users, a) == ReputationOf(s.users, a) - 1
      && r.0.users.Keys == s.users.Keys && r.0.items[ItemRef(Question, q)].author == b
  {
    FlipEffects(s, a, Question, q, Downvote);
    StepOnFlip(s, a, Question, q, Downvote);
  }

  /** The second downvote deletes the vote and gives back what the downvote cost. */
  lemma ScenarioToggleOff(s: Store, a: UserId, b: UserId, q: ItemId)
    requires s.votes == [Vote(a, Question, q, Downvote)] && a != b && a in s.users && b in s.users
    requires ItemRef(Question, q) in s.items && s.items[ItemRef(Question, q)].author == b
    ensures var r := Step(s, a, "question", q, "downvote");
      && r.1 == Success(VoteSummary(0, 0, 0))
      && ReputationOf(r.0.users, b) == ReputationOf(s.users, b) + 2
      && ReputationOf(r.0.users, a) == ReputationOf(s.users, a) + 1
  {
    ToggleOffEffects(s, a, Question, q, Downvote);
    assert Step(s, a, "question", q, "downvote").0.votes == [];
  }

  /**
   * Voter `a` upvotes question `q` written by `b`, then downvotes it (a flip),
   * then downvotes it again (a toggle-off), starting from an empty ledger.
   */
  lemma UpvoteFlipToggleScenario(s: Store, a: UserId, b: UserId, q: ItemId)
    requires s.votes == [] && a != b && a in s.users && b in s.users
    requires ItemRef(Question, q) in s.items && s.items[ItemRef(Question, q)].author == b
    ensures var s1 := Step(s, a, "question", q, "upvote");
      var s2 := Step(s1.0, a, "question", q, "downvote");
      var s3 := Step(s2.0, a, "question", q, "downvote");
      && s1.1 == Success(VoteSummary(1, 1, 0))
      && ReputationOf(s1.0.users, b) == ReputationOf(s.users, b) + 5
      && ReputationOf(s1.0.users, a) == ReputationOf(s.users, a)
      && s2.1 == Success(VoteSummary(-1, 0, 1))
      && ReputationOf(s2.0.users, b) == ReputationOf(s.users, b) - 2
      && ReputationOf(s2.0.users, a) == ReputationOf(s.users, a) - 1
      && s3.1 == Success(VoteSummary(0, 0, 0))
      && ReputationOf(s3.0.users, b) == ReputationOf(s.users, b)
      && ReputationOf(s3.0.users, a) == ReputationOf(s.users, a)
  {
    ScenarioUpvote(s, a, b, q);
    var s1 := Step(s, a, "question", q, "upvote").0;
    ScenarioFlip(s1, a, b, q);
    var s2 := Step(s1, a, "question", q, "downvote").0;
    ScenarioToggleOff(s2, a, b, q);
  }
}
