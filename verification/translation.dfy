/** `translateText` and the paired quote/author translation shared by both
    translation hooks. The request to the translation endpoint is replaced by
    its response, passed in. */
module Translation {
  import opened Results

  /** A translated quote and author. Empty strings mean "no translation". */
  datatype Pair = Pair(quote: string, author: string)

  const Empty: Pair := Pair("", "")

  predicate IsEmpty(p: Pair) {
    p.quote == "" && p.author == ""
  }

  /** One run of the endpoint's answer; its element 0 is the translated
      fragment. */
  type Segment = seq<string>

  /** What the endpoint gave back: a rejected or non-OK request, or a body
      whose `data[0]` is either absent or a list of segments. */
  datatype Response = RequestFailed | Body(first: Option<seq<Segment>>)

  /** `item[0]`, where a missing element joins as the empty string. */
  function SegmentText(seg: Segment): string {
    if |seg| == 0 then "" else seg[0]
  }

  /** `segments.map(item => item[0]).join("")`. */
  function JoinSegments(segs: seq<Segment>): string {
    if |segs| == 0 then "" else SegmentText(segs[0]) + JoinSegments(segs[1..])
  }

  /** Joining two runs of segments is joining each and concatenating, so
      the fragments appear in the order the endpoint returned them. */
  lemma {:induction false} JoinSegmentsAppend(a: seq<Segment>, b: seq<Segment>)
    ensures JoinSegments(a + b) == JoinSegments(a) + JoinSegments(b)
    decreases |a|
  {
    if |a| == 0 {
      assert a + b == b;
    } else {
      assert (a + b)[1..] == a[1..] + b;
      JoinSegmentsAppend(a[1..], b);
    }
  }

  /** The joined text starts with the first fragment, which is all that a
      plain `data[0][0][0]` read would give. */
  lemma JoinSegmentsStartsWithFirst(segs: seq<Segment>)
    requires |segs| > 0
    ensures JoinSegments(segs)[..|SegmentText(segs[0])|] == SegmentText(segs[0])
  {
  }

  /** `translateText`: empty text is "" whatever the endpoint would have
      said, so no request is needed; otherwise a failed request rejects and a
      body yields the joined segments of `data[0]`, or "" when it is absent. */
  function TranslateText(text: string, resp: Response): (r: Result<string>)
    ensures text == "" ==> r == Ok("")
    ensures text != "" ==> (r.Failed? <==> resp.RequestFailed?)
    ensures text != "" && resp.Body? && resp.first.None? ==> r == Ok("")
    ensures text != "" && resp.Body? && resp.first.Some? ==> r == Ok(JoinSegments(resp.first.value))
  {
    if text == "" then Ok("")
    else match resp
      case RequestFailed => Failed
      case Body(None) => Ok("")
      case Body(Some(segs)) => Ok(JoinSegments(segs))
  }

  /** Both halves of the `Promise.all`: each non-empty field is translated
      on its own, an empty field becomes "" without a request, and the pair
      resolves only when both halves resolve. */
  function TranslatePair(quote: string, author: string, quoteResp: Response, authorResp: Response): (r: Result<Pair>)
    ensures r.Ok? <==> TranslateText(quote, quoteResp).Ok? && TranslateText(author, authorResp).Ok?
    ensures r.Ok? ==> r.value == Pair(TranslateText(quote, quoteResp).value, TranslateText(author, authorResp).value)
    ensures quote == "" && author == "" ==> r == Ok(Empty)
    ensures r.Failed? <==> (quote != "" && quoteResp.RequestFailed?) || (author != "" && authorResp.RequestFailed?)
  {
    var q := if quote != "" then TranslateText(quote, quoteResp) else Ok("");
    var a := if author != "" then TranslateText(author, authorResp) else Ok("");
    if q.Ok? && a.Ok? then Ok(Pair(q.value, a.value)) else Failed
  }
}
