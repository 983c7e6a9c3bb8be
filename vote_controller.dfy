/**
 * `voteOnItem` (backend/controllers/voteController.js:7-95): one vote request
 * against the Vote collection, the users' reputations and the items' cached
 * scores. `Step` is the specification of one request as a function of the store;
 * `VoteService.VoteOnItem` performs the request step by step, in the order the
 * controller does, and is proved to agree with `Step`.
 */
module VoteController {
  import opened Wrappers
  import opened VoteKinds
  import opened VoteLedger
  import opened Reputation

  /** A question or an answer, addressed the way `itemModel.findById(itemId)` does. */
  datatype ItemRef = ItemRef(itemType: ItemType, itemId: ItemId)

  /** The fields of a question or answer the controller reads or writes. */
  datatype Item = Item(author: UserId, score: int)

  /** The controller's failure responses: 400, 404 and the 500 of the `catch`. */
  datatype VoteError =
    | InvalidParameters           // 400 'Invalid vote parameters'
    | ItemNotFound(kind: ItemType) // 404 '<itemType> not found'
    | VotingFailed                // 500 'Voting failed'

  /** The 200 response body: the recomputed score and the two counts it comes from. */
  datatype VoteSummary = VoteSummary(score: int, upvoteCount: nat, downvoteCount: nat)

  /** Everything a vote request reads or writes. */
  datatype Store = Store(votes: seq<Vote>, users: Users, items: map<ItemRef, Item>)

  /** Every item's cached score equals its net vote total in the ledger. */
  ghost predicate ScoreConsistent(s: Store) {
    forall ref :: ref in s.items ==> s.items[ref].score == NetScore(s.votes, ref.itemType, ref.itemId)
  }

  /**
   * The ledger and reputations after the create / toggle-off / flip transition
   * for a vote by `voter` on an item authored by `author`.
   */
  function Transition(votes: seq<Vote>, users: Users, voter: UserId, author: UserId, k: ItemType, itemId: ItemId, t: VoteType)
    : (r: (seq<Vote>, Users))
    ensures r.1.Keys == users.Keys
    ensures forall v :: v in votes && KeyOf(v) != VoteKey(voter, k, itemId) ==> v in r.0
    ensures forall v :: v in r.0 && KeyOf(v) != VoteKey(voter, k, itemId) ==> v in votes
  {
    match FindVote(votes, VoteKey(voter, k, itemId))
    case None =>
      (votes + [Vote(voter, k, itemId, t)], VoteEffect(users, voter, author, t, k, Add))
    case Some(i) =>
      if votes[i].voteType == t then
        RemoveAtKeepsOthers(votes, i, VoteKey(voter, k, itemId));
        (RemoveAt(votes, i), VoteEffect(users, voter, author, t, k, Remove))
      else
        RedirectKeepsOthers(votes, i, t, VoteKey(voter, k, itemId));
        (votes[i := votes[i].(voteType := t)],
         VoteEffect(VoteEffect(users, voter, author, votes[i].voteType, k, Remove), voter, author, t, k, Add))
  }

  /**
   * One `voteOnItem` request by `voter`, with the request body's `itemType`,
   * `itemId` and `type`. A request is one atomic step.
   */
  function Step(s: Store, voter: UserId, itemTypeName: string, itemId: ItemId, typeName: string)
    : (r: (Store, Result<VoteSummary, VoteError>))
    ensures r.1.Failure? ==> r.0 == s
    ensures r.1 == Failure(InvalidParameters)
        <==> ParseItemType(itemTypeName).None? || ParseVoteType(typeName).None?
    ensures r.1.Failure? && r.1.error.ItemNotFound? ==>
      r.1.error.kind == ParseItemType(itemTypeName).value && ItemRef(r.1.error.kind, itemId) !in s.items
    ensures ParseItemType(itemTypeName).Some? && ParseVoteType(typeName).Some?
        && ItemRef(ParseItemType(itemTypeName).value, itemId) !in s.items
        ==> r.1 == Failure(ItemNotFound(ParseItemType(itemTypeName).value))
    ensures ParseItemType(itemTypeName).Some? && ParseVoteType(typeName).Some?
        && ItemRef(ParseItemType(itemTypeName).value, itemId) in s.items
        && s.items[ItemRef(ParseItemType(itemTypeName).value, itemId)].author !in s.users
        ==> r.1 == Failure(VotingFailed)
    ensures r.1.Success? ==>
      var k := ParseItemType(itemTypeName).value;
      var ref := ItemRef(k, itemId);
      && ref in s.items
      && r.0.items == s.items[ref := s.items[ref].(score := r.1.value.score)]
      && r.0.users.Keys == s.users.Keys
      && r.1.value.upvoteCount == CountVotes(r.0.votes, k, itemId, Upvote)
      && r.1.value.downvoteCount == CountVotes(r.0.votes, k, itemId, Downvote)
      && r.1.value.score == r.1.value.upvoteCount - r.1.value.downvoteCount
  {
    var kind := ParseItemType(itemTypeName);
    var vt := ParseVoteType(typeName);
    if kind.None? || vt.None? then (s, Failure(InvalidParameters))
    else
      var ref := ItemRef(kind.value, itemId);
      if ref !in s.items then (s, Failure(ItemNotFound(kind.value)))
      // A missing author document populates as null and `item.author._id` throws.
      else if s.items[ref].author !in s.users then (s, Failure(VotingFailed))
      else
        var (s', summary) := Record(s, voter, ref, vt.value);
        (s', Success(summary))
  }

  /**
   * The successful path: the transition, then the score recomputed from the
   * ledger by counting (lines 80-86).
   */
  function Record(s: Store, voter: UserId, ref: ItemRef, t: VoteType): (r: (Store, VoteSummary))
    requires ref in s.items
    ensures r.1.upvoteCount == CountVotes(r.0.votes, ref.itemType, ref.itemId, Upvote)
    ensures r.1.downvoteCount == CountVotes(r.0.votes, ref.itemType, ref.itemId, Downvote)
    ensures r.1.score == NetScore(r.0.votes, ref.itemType, ref.itemId)
    ensures r.0.items == s.items[ref := s.items[ref].(score := r.1.score)]
    ensures r.0.users.Keys == s.users.Keys
  {
    var next := Transition(s.votes, s.users, voter, s.items[ref].author, ref.itemType, ref.itemId, t);
    var up := CountVotes(next.0, ref.itemType, ref.itemId, Upvote);
    var down := CountVotes(next.0, ref.itemType, ref.itemId, Downvote);
    (Store(next.0, next.1, s.items[ref := s.items[ref].(score := up - down)]), VoteSummary(up - down, up, down))
  }

  /** The store the controller starts from: no votes, and every item at the schema's default score 0. */
  predicate FreshStore(s: Store) {
    s.votes == [] && forall ref :: ref in s.items ==> s.items[ref].score == 0
  }

  class VoteService {
    var votes: seq<Vote>
    var users: Users
    var items: map<ItemRef, Item>

    function State(): Store
      reads this
    {
      Store(votes, users, items)
    }

    /** At most one vote per (user, itemType, itemId), and every cached score matches the ledger. */
    ghost predicate Valid()
      reads this
    {
      UniqueVotes(votes) && ScoreConsistent(State())
    }

    constructor (users: Users, items: map<ItemRef, Item>)
      requires forall ref :: ref in items ==> items[ref].score == 0
      ensures Valid()
      ensures FreshStore(State()) && this.users == users && this.items == items
    {
      this.votes := [];
      this.users := users;
      this.items := items;
    }

    /** `adjustReputation` (lines 99-120). */
    method AdjustReputation(userId: UserId, voteType: VoteType, itemType: ItemType, action: Action, isVoter: bool)
      modifies this`users
      ensures users == Adjusted(old(users), userId, voteType, itemType, action, isVoter)
    {
      if userId !in users {
        return;
      }
      var change := 0;
      if isVoter {
        if voteType == Downvote {
          change := -1;
        }
      } else {
        if voteType == Upvote {
          change := if itemType == Question then 5 else 10;
        } else if voteType == Downvote {
          change := -2;
        }
      }
      if action == Remove {
        change := -change;
      }
      var current := if users[userId].Some? then users[userId].value else 0;
      users := users[userId := Some(current + change)];
    }

    /**
     * The create / toggle-off / flip branch of `voteOnItem` (lines 38-77): the
     * ledger write and the reputation adjustments, in the controller's order.
     */
    method RecordVote(userId: UserId, authorId: UserId, itemType: ItemType, itemId: ItemId, voteType: VoteType)
      modifies this`votes, this`users
      ensures (votes, users) == Transition(old(votes), old(users), userId, authorId, itemType, itemId, voteType)
    {
      var existing := FindVote(votes, VoteKey(userId, itemType, itemId));
      match existing {
        case Some(i) =>
          var existingType := votes[i].voteType;
          if existingType == voteType {
            votes := RemoveAt(votes, i);
            AdjustReputation(authorId, voteType, itemType, Remove, false);
            if voteType == Downvote && userId != authorId {
              AdjustReputation(userId, voteType, itemType, Remove, true);
            }
          } else {
            AdjustReputation(authorId, existingType, itemType, Remove, false);
            if existingType == Downvote && userId != authorId {
              AdjustReputation(userId, existingType, itemType, Remove, true);
            }
            votes := votes[i := votes[i].(voteType := voteType)];
            AdjustReputation(authorId, voteType, itemType, Add, false);
            if voteType == Downvote && userId != authorId {
              AdjustReputation(userId, voteType, itemType, Add, true);
            }
          }
        case None =>
          votes := votes + [Vote(userId, itemType, itemId, voteType)];
          AdjustReputation(authorId, voteType, itemType, Add, false);
          if voteType == Downvote && userId != authorId {
            AdjustReputation(userId, voteType, itemType, Add, true);
          }
      }
    }

    /** `voteOnItem` (lines 7-95) for the authenticated `userId`. */
    method VoteOnItem(userId: UserId, itemTypeName: string, itemId: ItemId, typeName: string)
      returns (response: Result<VoteSummary, VoteError>)
      requires Valid()
      modifies this
      ensures Valid()
      ensures (State(), response) == Step(old(State()), userId, itemTypeName, itemId, typeName)
    {
      ghost var s := State();
      var kind := ParseItemType(itemTypeName);
      var vt := ParseVoteType(typeName);
      if kind.None? || vt.None? {
        assert Step(s, userId, itemTypeName, itemId, typeName) == (s, Failure(InvalidParameters));
        return Failure(InvalidParameters);
      }
      var itemType, voteType := kind.value, vt.value;
      var ref := ItemRef(itemType, itemId);
      if ref !in items {
        assert Step(s, userId, itemTypeName, itemId, typeName) == (s, Failure(ItemNotFound(itemType)));
        return Failure(ItemNotFound(itemType));
      }
      var authorId := items[ref].author;
      if authorId !in users {
        assert Step(s, userId, itemTypeName, itemId, typeName) == (s, Failure(VotingFailed));
        return Failure(VotingFailed);
      }
      assert Step(s, userId, itemTypeName, itemId, typeName)
          == (Record(s, userId, ref, voteType).0, Success(Record(s, userId, ref, voteType).1));
      RecordVote(userId, authorId, itemType, itemId, voteType);

      var upvotes := CountVotes(votes, itemType, itemId, Upvote);
      var downvotes := CountVotes(votes, itemType, itemId, Downvote);
      var score := upvotes as int - downvotes as int;
      items := items[ref := items[ref].(score := score)];
      response := Success(VoteSummary(score, upvotes, downvotes));
      assert (State(), response.value) == Record(s, userId, ref, voteType);
      RecordKeepsInvariants(s, userId, ref, voteType);
    }
  }

  /** One successful request keeps the ledger unique and every cached score consistent with it. */
  lemma RecordKeepsInvariants(s: Store, voter: UserId, ref: ItemRef, t: VoteType)
    requires ref in s.items
    requires UniqueVotes(s.votes) && ScoreConsistent(s)
    ensures UniqueVotes(Record(s, voter, ref, t).0.votes)
    ensures ScoreConsistent(Record(s, voter, ref, t).0)
  {
    var s' := Record(s, voter, ref, t).0;
    TransitionKeepsUnique(s.votes, s.users, voter, s.items[ref].author, ref.itemType, ref.itemId, t);
    forall other | other in s'.items
      ensures s'.items[other].score == NetScore(s'.votes, other.itemType, other.itemId)
    {
      if other != ref {
        OtherItemsKeepScore(s.votes, s.users, voter, s.items[ref].author, ref.itemType, ref.itemId, t,
                            other.itemType, other.itemId);
      }
    }
  }

  /** A vote request never creates a second vote for a tuple. */
  lemma TransitionKeepsUnique(votes: seq<Vote>, users: Users, voter: UserId, author: UserId, k: ItemType, itemId: ItemId, t: VoteType)
    requires UniqueVotes(votes)
    ensures UniqueVotes(Transition(votes, users, voter, author, k, itemId, t).0)
  {
    match FindVote(votes, VoteKey(voter, k, itemId))
    case None =>
      AppendKeepsUnique(votes, Vote(voter, k, itemId, t));
    case Some(i) =>
      if votes[i].voteType == t {
        RemoveKeepsUnique(votes, i);
      } else {
        RedirectKeepsUnique(votes, i, t);
      }
  }

  /** The transition touches only votes on the item voted on, so every other item's net total is unchanged. */
  lemma OtherItemsKeepScore(votes: seq<Vote>, users: Users, voter: UserId, author: UserId, k: ItemType, itemId: ItemId, t: VoteType,
                            k': ItemType, itemId': ItemId)
    requires ItemRef(k', itemId') != ItemRef(k, itemId)
    ensures NetScore(Transition(votes, users, voter, author, k, itemId, t).0, k', itemId') == NetScore(votes, k', itemId')
  {
    match FindVote(votes, VoteKey(voter, k, itemId))
    case None =>
      CountAppend(votes, [Vote(voter, k, itemId, t)], k', itemId', Upvote);
      CountAppend(votes, [Vote(voter, k, itemId, t)], k', itemId', Downvote);
    case Some(i) =>
      if votes[i].voteType == t {
        CountRemoveAt(votes, i, k', itemId', Upvote);
        CountRemoveAt(votes, i, k', itemId', Downvote);
      } else {
        CountUpdate(votes, i, votes[i].(voteType := t), k', itemId', Upvote);
        CountUpdate(votes, i, votes[i].(voteType := t), k', itemId', Downvote);
      }
  }
}
