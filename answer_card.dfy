/**
 * The vote buttons of an answer card (frontend/components/Answer/AnswerCard.tsx):
 * the counters the card shows, the user's vote as the card remembers it, and
 * `handleVote`, which sends the vote and then adjusts the counters the server
 * returns.
 */
module AnswerCard {
  import opened Wrappers
  import opened JsText
  import opened VoteKinds
  import opened VoteLedger
  import opened VoteController
  import opened VoteProperties

  /** What the card shows: the two counters and the user's vote, `None` for `null`. */
  datatype CardVotes = CardVotes(upvotes: int, downvotes: int, userVote: Option<VoteType>)

  /** The counter the card shows for votes of type `t`. */
  function Shown(c: CardVotes, t: VoteType): int {
    match t
    case Upvote => c.upvotes
    case Downvote => c.downvotes
  }

  /** The count of type `t` in the server's reply. */
  function Reported(reply: VoteSummary, t: VoteType): nat {
    match t
    case Upvote => reply.upvoteCount
    case Downvote => reply.downvoteCount
  }

  /** `Math.max(count - 1, 0)`. */
  function LessOne(count: int): int {
    if count - 1 > 0 then count - 1 else 0
  }

  /**
   * The card after a successful vote of type `t` (lines 74-101): the counters
   * take the server's counts, then the button pressed counts one more, or one
   * fewer when it undoes the user's vote, and a vote the other way is taken
   * off the other counter; pressing the user's current vote clears it.
   */
  function AfterVote(userVote: Option<VoteType>, t: VoteType, reply: VoteSummary): (r: CardVotes)
    ensures r.userVote == if userVote == Some(t) then None else Some(t)
    ensures Shown(r, t) ==
      if userVote == Some(t) then LessOne(Reported(reply, t)) else Reported(reply, t) + 1
    ensures Shown(r, Opposite(t)) ==
      if userVote == Some(Opposite(t)) then LessOne(Reported(reply, Opposite(t))) else Reported(reply, Opposite(t))
    ensures r.upvotes >= 0 && r.downvotes >= 0
  {
    var up := reply.upvoteCount;
    var down := reply.downvoteCount;
    match t
    case Upvote =>
      if userVote == Some(Upvote) then CardVotes(LessOne(up), down, None)
      else if userVote == Some(Downvote) then CardVotes(up + 1, LessOne(down), Some(Upvote))
      else CardVotes(up + 1, down, Some(Upvote))
    case Downvote =>
      if userVote == Some(Downvote) then CardVotes(up, LessOne(down), None)
      else if userVote == Some(Upvote) then CardVotes(LessOne(up), down + 1, Some(Downvote))
      else CardVotes(up, down + 1, Some(Downvote))
  }

  /** The vote state cells of one answer card. */
  class VoteButtons {
    var upvoteCount: int
    var downvoteCount: int
    var userVote: Option<VoteType>
    var loadingVote: bool

    /** The counters and the remembered vote. */
    function Votes(): CardVotes
      reads this
    {
      CardVotes(upvoteCount, downvoteCount, userVote)
    }

    /**
     * The card as first rendered (lines 39, 45-47): the counters are the
     * lengths of the answer's vote arrays and no vote is remembered.
     */
    constructor (upvotes: nat, downvotes: nat)
      ensures Votes() == CardVotes(upvotes, downvotes, None)
      ensures !loadingVote
    {
      upvoteCount := upvotes;
      downvoteCount := downvotes;
      userVote := None;
      loadingVote := false;
    }

    /**
     * `handleVote(t)` with the session token `token`; `reply` is the result of
     * `changeVote`, `None` when the request fails. The result says whether a
     * request was sent.
     */
    method HandleVote(t: VoteType, token: Option<string>, reply: Option<VoteSummary>) returns (requested: bool)
      modifies this
      ensures requested <==> Truthy(token)
      ensures !requested ==> Votes() == old(Votes()) && loadingVote == old(loadingVote)
      ensures requested ==> !loadingVote
      ensures requested && reply.None? ==> Votes() == old(Votes())
      ensures requested && reply.Some? ==> Votes() == AfterVote(old(userVote), t, reply.value)
    {
      if !Truthy(token) {
        return false;
      }
      requested := true;
      loadingVote := true;
      if reply.Some? {
        upvoteCount := reply.value.upvoteCount;
        downvoteCount := reply.value.downvoteCount;
        if t == Upvote {
          if userVote == Some(Upvote) {
            upvoteCount := LessOne(upvoteCount);
            userVote := None;
          } else if userVote == Some(Downvote) {
            upvoteCount := upvoteCount + 1;
            downvoteCount := LessOne(downvoteCount);
            userVote := Some(Upvote);
          } else {
            upvoteCount := upvoteCount + 1;
            userVote := Some(Upvote);
          }
        } else {
          if userVote == Some(Downvote) {
            downvoteCount := LessOne(downvoteCount);
            userVote := None;
          } else if userVote == Some(Upvote) {
            downvoteCount := downvoteCount + 1;
            upvoteCount := LessOne(upvoteCount);
            userVote := Some(Downvote);
          } else {
            downvoteCount := downvoteCount + 1;
            userVote := Some(Downvote);
          }
        }
      }
      loadingVote := false;
    }
  }

  /**
   * The card's toggling follows the server's: when the vote the card remembers
   * is the vote the ledger holds, the two still agree after the request. A vote
   * the user did not hold before is shown one higher than the ledger's count,
   * because the server's count already includes it.
   */
  lemma CardFollowsLedger(s: Store, voter: UserId, itemId: ItemId, t: VoteType, userVote: Option<VoteType>)
    requires ItemRef(Answer, itemId) in s.items && s.items[ItemRef(Answer, itemId)].author in s.users
    requires UniqueVotes(s.votes)
    requires userVote == HeldVote(s.votes, voter, Answer, itemId)
    ensures var r := Step(s, voter, "answer", itemId, VoteTypeName(t));
      && r.1.Success?
      && AfterVote(userVote, t, r.1.value).userVote == HeldVote(r.0.votes, voter, Answer, itemId)
      && (userVote.None? ==>
            Shown(AfterVote(userVote, t, r.1.value), t) == CountVotes(r.0.votes, Answer, itemId, t) + 1)
  {
    match userVote
    case None =>
      FirstVoteEffects(s, voter, Answer, itemId, t);
    case Some(held) =>
      if held == t {
        ToggleOffEffects(s, voter, Answer, itemId, t);
      } else {
        assert held == Opposite(t);
        FlipEffects(s, voter, Answer, itemId, t);
      }
  }

  /** The first upvote on an answer nobody has voted on shows as two upvotes. */
  lemma FirstUpvoteShownTwice(s: Store, voter: UserId, itemId: ItemId)
    requires s.votes == []
    requires ItemRef(Answer, itemId) in s.items && s.items[ItemRef(Answer, itemId)].author in s.users
    ensures var r := Step(s, voter, "answer", itemId, "upvote");
      && r.1.Success?
      && r.1.value.upvoteCount == 1
      && AfterVote(None, Upvote, r.1.value).upvotes == 2
  {
    FirstVoteEffects(s, voter, Answer, itemId, Upvote);
  }
}
