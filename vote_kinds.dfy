/**
 * The two enumerations a vote is made of, shared by the server and the client:
 * the kind of item voted on ('question' or 'answer') and the direction of the vote
 * ('upvote' or 'downvote'). Requests carry them as strings, so each comes with its
 * wire name and a parser that accepts exactly the wire names
 * (backend/models/Vote.js, `enum` of `itemType` and `type`).
 */
module VoteKinds {
  import opened Wrappers

  datatype ItemType = Question | Answer
  datatype VoteType = Upvote | Downvote

  function ItemTypeName(k: ItemType): string {
    match k
    case Question => "question"
    case Answer => "answer"
  }

  function VoteTypeName(t: VoteType): string {
    match t
    case Upvote => "upvote"
    case Downvote => "downvote"
  }

  /** `['question', 'answer'].includes(itemType)`, keeping which one matched. */
  function ParseItemType(s: string): (r: Option<ItemType>)
    ensures r.Some? <==> s == "question" || s == "answer"
    ensures r.Some? ==> ItemTypeName(r.value) == s
  {
    if s == "question" then Some(Question)
    else if s == "answer" then Some(Answer)
    else None
  }

  /** `['upvote', 'downvote'].includes(type)`, keeping which one matched. */
  function ParseVoteType(s: string): (r: Option<VoteType>)
    ensures r.Some? <==> s == "upvote" || s == "downvote"
    ensures r.Some? ==> VoteTypeName(r.value) == s
  {
    if s == "upvote" then Some(Upvote)
    else if s == "downvote" then Some(Downvote)
    else None
  }

  /** Every item type survives the trip through its wire name. */
  lemma ItemTypeNameRoundTrip(k: ItemType)
    ensures ParseItemType(ItemTypeName(k)) == Some(k)
  {
  }

  /** Every vote direction survives the trip through its wire name. */
  lemma VoteTypeNameRoundTrip(t: VoteType)
    ensures ParseVoteType(VoteTypeName(t)) == Some(t)
  {
  }

  /** The opposite direction; a flip replaces a vote by its opposite. */
  function Opposite(t: VoteType): (r: VoteType)
    ensures r != t
  {
    match t
    case Upvote => Downvote
    case Downvote => Upvote
  }
}
