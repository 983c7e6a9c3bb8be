/**
 * The ask-a-question form (frontend/app/ask/page.tsx:15-57): the tag list
 * parsed from the comma-separated tag field, the validity of the form, and the
 * submit handler that posts the question.
 */
module AskPage {
  import opened Wrappers
  import opened JsText

  /** The most tags a question is posted with. */
  const MaxTags: nat := 5

  /** `.map((tag) => tag.trim())`. */
  function TrimAll(pieces: seq<string>): (r: seq<string>)
    ensures |r| == |pieces|
    ensures forall i :: 0 <= i < |r| ==> r[i] == Trim(pieces[i])
  {
    if |pieces| == 0 then [] else [Trim(pieces[0])] + TrimAll(pieces[1..])
  }

  /** `.filter(Boolean)`: the non-empty strings, in order. */
  function NonEmpty(pieces: seq<string>): (r: seq<string>)
    ensures |r| <= |pieces|
    ensures forall x :: x in r <==> x in pieces && x != ""
    ensures forall x :: multiset(r)[x] == if x == "" then 0 else multiset(pieces)[x]
  {
    if |pieces| == 0 then []
    else
      assert pieces == [pieces[0]] + pieces[1..];
      if pieces[0] == "" then NonEmpty(pieces[1..])
      else [pieces[0]] + NonEmpty(pieces[1..])
  }

  /** One piece is kept exactly when it is not empty; with `NonEmptyConcat` this fixes order and repeats. */
  lemma NonEmptySingle(p: string)
    ensures NonEmpty([p]) == if p == "" then [] else [p]
  {
    assert [p][1..] == [];
  }

  /** The trimmed, non-empty comma-separated pieces of the tag field, before the cut to five. */
  function CleanPieces(tags: string): seq<string> {
    NonEmpty(TrimAll(Split(tags)))
  }

  /** What every parsed tag is: non-empty, without surrounding whitespace, without a comma. */
  predicate IsTag(t: string) {
    t != "" && Trim(t) == t && ',' !in t
  }

  /** A string is one of the clean pieces exactly when it is the non-empty trim of a piece between commas. */
  lemma CleanPieceMembership(tags: string, x: string)
    ensures x in CleanPieces(tags) <==> x != "" && exists p :: p in Split(tags) && Trim(p) == x
  {
    var pieces := Split(tags);
    var trimmed := TrimAll(pieces);
    assert x in CleanPieces(tags) <==> x in trimmed && x != "";
    if x in trimmed {
      var i :| 0 <= i < |trimmed| && trimmed[i] == x;
      assert pieces[i] in pieces && Trim(pieces[i]) == x;
    }
    if exists p :: p in pieces && Trim(p) == x {
      var p :| p in pieces && Trim(p) == x;
      var i :| 0 <= i < |pieces| && pieces[i] == p;
      assert trimmed[i] == x;
    }
  }

  /** Every clean piece is a tag. */
  lemma CleanPiecesAreTags(tags: string)
    ensures forall t :: t in CleanPieces(tags) ==> IsTag(t)
  {
    var pieces := Split(tags);
    var trimmed := TrimAll(pieces);
    forall t | t in CleanPieces(tags)
      ensures IsTag(t)
    {
      var i :| 0 <= i < |trimmed| && trimmed[i] == t;
      assert pieces[i] in pieces;
      TrimIdempotent(pieces[i]);
      TrimKeepsOnlyChars(pieces[i], ',');
    }
  }

  /** `tags.split(",").map(trim).filter(Boolean).slice(0, 5)` (lines 27-31). */
  function ParseTags(tags: string): (r: seq<string>)
    ensures |r| <= MaxTags
    ensures forall t :: t in r ==> IsTag(t)
    ensures |r| == if |CleanPieces(tags)| < MaxTags then |CleanPieces(tags)| else MaxTags
    ensures r == CleanPieces(tags)[..|r|]
  {
    var clean := CleanPieces(tags);
    CleanPiecesAreTags(tags);
    if |clean| <= MaxTags then clean else clean[..MaxTags]
  }

  /** Tags come out in the order they were typed: the tags of `a,b` are those of `a`, then those of `b`. */
  lemma CleanPiecesInOrder(a: string, b: string)
    ensures CleanPieces(a + "," + b) == CleanPieces(a) + CleanPieces(b)
  {
    SplitConcat(a, b);
    TrimAllConcat(Split(a), Split(b));
    NonEmptyConcat(TrimAll(Split(a)), TrimAll(Split(b)));
  }

  lemma TrimAllConcat(x: seq<string>, y: seq<string>)
    ensures TrimAll(x + y) == TrimAll(x) + TrimAll(y)
  {
    var whole, parts := TrimAll(x + y), TrimAll(x) + TrimAll(y);
    forall i | 0 <= i < |whole|
      ensures whole[i] == parts[i]
    {
      if i < |x| {
        assert (x + y)[i] == x[i];
      } else {
        assert (x + y)[i] == y[i - |x|];
      }
    }
  }

  lemma {:induction false} NonEmptyConcat(x: seq<string>, y: seq<string>)
    ensures NonEmpty(x + y) == NonEmpty(x) + NonEmpty(y)
  {
    if |x| > 0 {
      NonEmptyConcat(x[1..], y);
      assert (x + y)[1..] == x[1..] + y;
      assert (x + y)[0] == x[0];
    } else {
      assert x + y == y;
    }
  }

  /** `isFormValid` (line 33): both the title and the description hold a non-whitespace character. */
  function IsFormValid(title: string, description: string): (r: bool)
    ensures r <==> !AllWhitespace(title) && !AllWhitespace(description)
  {
    Trim(title) != "" && Trim(description) != ""
  }

  /** The arguments of `createQuestion(title, description, tags, token)`. */
  datatype CreateQuestionRequest = CreateQuestionRequest(title: string, description: string, tags: seq<string>, token: Option<string>)

  /** The form's state cells. */
  class AskQuestionForm {
    var title: string
    var description: string
    var tags: string
    var loading: bool

    constructor ()
      ensures title == "" && description == "" && tags == "" && !loading
    {
      title, description, tags, loading := "", "", "", false;
    }

    /**
     * `handleSubmit` (lines 35-57). `createSucceeds` stands for the outcome of
     * the network call. Returns the request sent, if any, and whether the page
     * navigated to the question list.
     */
    method HandleSubmit(token: Option<string>, createSucceeds: bool)
      returns (sent: Option<CreateQuestionRequest>, navigatedToExplore: bool)
      modifies this`loading
      ensures sent.Some? <==> IsFormValid(title, description)
      ensures sent.Some? ==> sent.value == CreateQuestionRequest(Trim(title), Trim(description), ParseTags(tags), token)
      ensures sent.Some? ==> sent.value.title != "" && sent.value.description != "" && |sent.value.tags| <= MaxTags
      ensures navigatedToExplore <==> sent.Some? && createSucceeds
      ensures loading == (if sent.Some? then false else old(loading))
    {
      if !IsFormValid(title, description) {
        return None, false;
      }
      loading := true;
      sent := Some(CreateQuestionRequest(Trim(title), Trim(description), ParseTags(tags), token));
      navigatedToExplore := createSucceeds;
      loading := false;
    }
  }
}
