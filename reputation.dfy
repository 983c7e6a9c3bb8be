/**
 * Reputation bookkeeping of the vote controller (`adjustReputation`,
 * backend/controllers/voteController.js:99-120). Users are a map from id to the
 * stored `reputation` field, which may be unset (`None`); an unset field reads
 * as 0 (`user.reputation || 0`). A user id with no document is not in the map.
 */
module Reputation {
  import opened Wrappers
  import opened VoteKinds
  import opened VoteLedger

  type Users = map<UserId, Option<int>>

  /** `add` applies a change; `remove` applies its negation. */
  datatype Action = Add | Remove

  /** The reputation a user document reads as: its field, or 0 when the field is unset or the user is unknown. */
  function ReputationOf(users: Users, u: UserId): int {
    if u in users && users[u].Some? then users[u].value else 0
  }

  /**
   * The point table of `adjustReputation` (voteController.js:105-114): points
   * for the item's author and for a voter who downvotes, before `add`/`remove`
   * signs them.
   */
  function AuthorPoints(t: VoteType, k: ItemType): int {
    match t
    case Upvote => if k == Question then 5 else 10
    case Downvote => -2
  }

  function VoterPoints(t: VoteType): int {
    if t == Downvote then -1 else 0
  }

  function Sign(action: Action): int {
    if action == Add then 1 else -1
  }

  /**
   * The stored state after `adjustReputation(userId, voteType, itemType, action, isVoter)`.
   * An unknown user is a no-op; otherwise only `userId`'s field is written.
   */
  function Adjusted(users: Users, userId: UserId, t: VoteType, k: ItemType, action: Action, isVoter: bool): (r: Users)
    ensures r.Keys == users.Keys
    ensures userId !in users ==> r == users
    ensures forall u :: u in users && u != userId ==> r[u] == users[u]
    ensures userId in users ==>
      ReputationOf(r, userId) == ReputationOf(users, userId) + Sign(action) * (if isVoter then VoterPoints(t) else AuthorPoints(t, k))
  {
    if userId !in users then users
    else users[userId := Some(ReputationOf(users, userId) + Sign(action) * (if isVoter then VoterPoints(t) else AuthorPoints(t, k)))]
  }

  /** `remove` undoes `add` for the same arguments: every user reads as before. */
  lemma RemoveUndoesAdd(users: Users, userId: UserId, t: VoteType, k: ItemType, isVoter: bool)
    ensures var back := Adjusted(Adjusted(users, userId, t, k, Add, isVoter), userId, t, k, Remove, isVoter);
      back.Keys == users.Keys && forall u :: ReputationOf(back, u) == ReputationOf(users, u)
  {
  }

  /**
   * The reputation effect of one vote (lines 47-49, 54-56, 62-64, 72-74): the
   * author is adjusted, and the voter too when the vote is a downvote and the
   * voter is not the author.
   */
  function VoteEffect(users: Users, voter: UserId, author: UserId, t: VoteType, k: ItemType, action: Action): (r: Users)
    ensures r.Keys == users.Keys
    ensures forall w :: w in users && w != author && w != voter ==> r[w] == users[w]
    ensures t == Upvote || voter == author ==> forall w :: w in users && w != author ==> r[w] == users[w]
  {
    var afterAuthor := Adjusted(users, author, t, k, action, false);
    if t == Downvote && voter != author then Adjusted(afterAuthor, voter, t, k, action, true) else afterAuthor
  }

  /**
   * The points one vote is worth to user `w`, as a table: the author's share,
   * plus the self-cost of a downvote when `w` is a voter other than the author.
   */
  function PointsFor(w: UserId, voter: UserId, author: UserId, t: VoteType, k: ItemType): int {
    (if w == author then AuthorPoints(t, k) else 0)
    + (if w == voter && voter != author then VoterPoints(t) else 0)
  }

  /** The effect of a vote on every known user is exactly its table entry, signed by the action. */
  lemma VoteEffectIsTable(users: Users, voter: UserId, author: UserId, t: VoteType, k: ItemType, action: Action)
    requires author in users
    ensures VoteEffect(users, voter, author, t, k, action).Keys == users.Keys
    ensures forall w :: w in users ==>
      ReputationOf(VoteEffect(users, voter, author, t, k, action), w)
        == ReputationOf(users, w) + Sign(action) * PointsFor(w, voter, author, t, k)
  {
    var afterAuthor := Adjusted(users, author, t, k, action, false);
    forall w | w in users
      ensures ReputationOf(VoteEffect(users, voter, author, t, k, action), w)
           == ReputationOf(users, w) + Sign(action) * PointsFor(w, voter, author, t, k)
    {
      if t == Downvote && voter != author {
        assert ReputationOf(afterAuthor, w) == ReputationOf(users, w) + (if w == author then Sign(action) * AuthorPoints(t, k) else 0);
      }
    }
  }

  /** Removing a vote's effect after adding it restores every user's reputation. */
  lemma VoteEffectRoundTrip(users: Users, voter: UserId, author: UserId, t: VoteType, k: ItemType)
    requires author in users
    ensures var back := VoteEffect(VoteEffect(users, voter, author, t, k, Add), voter, author, t, k, Remove);
      back.Keys == users.Keys && forall w :: ReputationOf(back, w) == ReputationOf(users, w)
  {
    var once := VoteEffect(users, voter, author, t, k, Add);
    VoteEffectIsTable(users, voter, author, t, k, Add);
    VoteEffectIsTable(once, voter, author, t, k, Remove);
  }

  /** A user downvoting their own item loses the author's 2 points and nothing more; nobody else changes. */
  lemma SelfDownvoteCostsTwo(users: Users, author: UserId, k: ItemType)
    requires author in users
    ensures var r := VoteEffect(users, author, author, Downvote, k, Add);
      r.Keys == users.Keys
      && ReputationOf(r, author) == ReputationOf(users, author) - 2
      && forall w :: w != author ==> ReputationOf(r, w) == ReputationOf(users, w)
  {
  }

  /** Replacing vote `t` by `u` and then `u` by `t` again restores every user's reputation. */
  lemma FlipBackRestores(users: Users, voter: UserId, author: UserId, t: VoteType, u: VoteType, k: ItemType)
    requires author in users
    ensures var users1 := VoteEffect(VoteEffect(users, voter, author, t, k, Remove), voter, author, u, k, Add);
      var back := VoteEffect(VoteEffect(users1, voter, author, u, k, Remove), voter, author, t, k, Add);
      back.Keys == users.Keys && forall w :: ReputationOf(back, w) == ReputationOf(users, w)
  {
    var users0 := VoteEffect(users, voter, author, t, k, Remove);
    var users1 := VoteEffect(users0, voter, author, u, k, Add);
    var users2 := VoteEffect(users1, voter, author, u, k, Remove);
    VoteEffectIsTable(users, voter, author, t, k, Remove);
    VoteEffectIsTable(users0, voter, author, u, k, Add);
    VoteEffectIsTable(users1, voter, author, u, k, Remove);
    VoteEffectIsTable(users2, voter, author, t, k, Add);
  }
}
