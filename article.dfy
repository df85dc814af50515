/**
 * The article page: how the body text is cut into paragraphs, how a
 * comment's age is worded, the like button with its reentrancy guard and
 * the comment box. The paragraph splitter and `getTimeAgo` appear twice in
 * the client, once on the article page and once on the home page, with the
 * same code.
 */
module ArticlePage {
  import opened Optional
  import opened JsString
  import Sequences
  import Server

  // ------------------------------------------------------------------ blank-line split

  /** No two consecutive line feeds. */
  predicate NoBlankLine(s: string) {
    forall i :: 0 <= i < |s| - 1 ==> !(s[i] == '\n' && s[i + 1] == '\n')
  }

  /** Drops the line feeds at the front. */
  function DropNewlines(s: string): (r: string)
    ensures |r| <= |s| && r == s[|s| - |r|..]
    ensures forall i :: 0 <= i < |s| - |r| ==> s[i] == '\n'
    ensures r == [] || r[0] != '\n'
    decreases |s|
  {
    if s != [] && s[0] == '\n' then DropNewlines(s[1..]) else s
  }

  /**
   * `content.split(/\n\n+/)`: the pieces between the runs of two or more
   * line feeds, scanning from the left; a single line feed stays in its piece.
   */
  function SplitBlank(s: string): (r: seq<string>)
    ensures |r| >= 1
    ensures |r[0]| <= |s| && r[0] == s[..|r[0]|]
    ensures forall k :: 0 <= k < |r| ==> NoBlankLine(r[k])
    decreases |s|
  {
    if s == [] then [""]
    else if |s| >= 2 && s[0] == '\n' && s[1] == '\n' then [""] + SplitBlank(DropNewlines(s))
    else
      var rest := SplitBlank(s[1..]);
      var head := [s[0]] + rest[0];
      assert NoBlankLine(head) by {
        if s[0] == '\n' && |head| > 1 {
          assert head[1] == s[1];
        }
        forall i | 1 <= i < |head| - 1 ensures !(head[i] == '\n' && head[i + 1] == '\n') {
          assert head[i] == rest[0][i - 1] && head[i + 1] == rest[0][i];
        }
      }
      [head] + rest[1..]
  }

  /** The pieces joined back with exactly one blank line between them. */
  function JoinBlank(parts: seq<string>): string
    decreases |parts|
  {
    if parts == [] then ""
    else if |parts| == 1 then parts[0]
    else parts[0] + "\n\n" + JoinBlank(parts[1..])
  }

  /** A paragraph that survives the round trip: no blank line inside, no trailing line feed. */
  predicate Paragraph(p: string) {
    NoBlankLine(p) && (p == [] || p[|p| - 1] != '\n')
  }

  /** Pieces that `SplitBlank` recovers from `JoinBlank`: every piece after the first is non-empty and starts with no line feed. */
  predicate Separable(parts: seq<string>) {
    && |parts| >= 1
    && Paragraph(parts[0])
    && (forall i :: 1 <= i < |parts| ==> parts[i] != [] && parts[i][0] != '\n' && Paragraph(parts[i]))
  }

  lemma JoinBlankHead(parts: seq<string>)
    requires |parts| >= 1 && parts[0] != []
    ensures JoinBlank(parts) != [] && JoinBlank(parts)[0] == parts[0][0]
  {
  }

  lemma SplitBlankKeep(s: string)
    requires s != [] && !(|s| >= 2 && s[0] == '\n' && s[1] == '\n')
    ensures SplitBlank(s) == [[s[0]] + SplitBlank(s[1..])[0]] + SplitBlank(s[1..])[1..]
  {
  }

  lemma SplitBlankCut(t: string)
    requires t == [] || t[0] != '\n'
    ensures SplitBlank("\n\n" + t) == [""] + SplitBlank(t)
  {
    var s := "\n\n" + t;
    assert s[1..] == "\n" + t && s[1..][1..] == t;
  }

  lemma JoinBlankCons(parts: seq<string>)
    requires |parts| >= 1 && parts[0] != []
    ensures JoinBlank(parts) == [parts[0][0]] + JoinBlank([parts[0][1..]] + parts[1..])
  {
    var tail := [parts[0][1..]] + parts[1..];
    assert tail[1..] == parts[1..];
    assert parts[0] == [parts[0][0]] + parts[0][1..];
  }

  lemma SeparableTail(parts: seq<string>)
    requires Separable(parts) && parts[0] != []
    ensures Separable([parts[0][1..]] + parts[1..])
  {
    var tail := [parts[0][1..]] + parts[1..];
    var p := parts[0][1..];
    forall i | 0 <= i < |p| - 1 ensures !(p[i] == '\n' && p[i + 1] == '\n') {
      assert p[i] == parts[0][i + 1] && p[i + 1] == parts[0][i + 2];
    }
    assert forall i :: 1 <= i < |tail| ==> tail[i] == parts[i];
  }

  /** Splitting paragraphs joined by blank lines gives the paragraphs back. */
  lemma {:induction false} SplitBlankJoin(parts: seq<string>)
    requires Separable(parts)
    ensures SplitBlank(JoinBlank(parts)) == parts
    decreases |parts|, |parts[0]|
  {
    var s := JoinBlank(parts);
    if parts[0] == [] {
      if |parts| > 1 {
        JoinBlankHead(parts[1..]);
        SplitBlankCut(JoinBlank(parts[1..]));
        SplitBlankJoin(parts[1..]);
      }
    } else {
      var tail := [parts[0][1..]] + parts[1..];
      SeparableTail(parts);
      SplitBlankJoin(tail);
      JoinBlankCons(parts);
      assert s[1..] == JoinBlank(tail);
      if s[0] == '\n' {
        assert |parts[0]| >= 2 && s[1] == parts[0][1];
      }
      SplitBlankKeep(s);
      assert tail[1..] == parts[1..];
      assert parts[0] == [parts[0][0]] + parts[0][1..];
    }
  }

  // ------------------------------------------------------------------ sentence packing

  const ChunkLimit := 500

  function Concat(s: seq<string>): string
    decreases |s|
  {
    if s == [] then "" else s[0] + Concat(s[1..])
  }

  /** The chunk in hand is pushed before `s`: it is non-empty and `s` would take it past 500 characters. */
  predicate Closes(current: string, s: string) {
    |current + s| > ChunkLimit && |current| > 0
  }

  /**
   * The chunks the packing loop pushes, before trimming, when it has
   * `current` in hand and `sentences` still to place: a sentence closes the
   * chunk in hand when it would take it past 500 characters and the chunk is
   * non-empty; otherwise it is appended.
   */
  function Pack(sentences: seq<string>, current: string): seq<string>
    decreases |sentences|
  {
    if sentences == [] then (if current != "" then [current] else [])
    else
      var s := sentences[0];
      if Closes(current, s) then [current] + Pack(sentences[1..], s)
      else Pack(sentences[1..], current + s)
  }

  /** The chunks are the sentences, in order, cut at chunk boundaries: no text is lost or added. */
  lemma {:induction false} PackConcat(sentences: seq<string>, current: string)
    ensures Concat(Pack(sentences, current)) == current + Concat(sentences)
    decreases |sentences|
  {
    if sentences == [] {
      if current != "" {
        assert Concat([current]) == current + Concat([]);
      }
    } else {
      var s := sentences[0];
      if Closes(current, s) {
        PackConcat(sentences[1..], s);
        var rest := Pack(sentences[1..], s);
        assert ([current] + rest)[1..] == rest;
      } else {
        PackConcat(sentences[1..], current + s);
      }
    }
  }

  /** No chunk is empty. */
  lemma {:induction false} PackNoEmpty(sentences: seq<string>, current: string)
    ensures forall c :: c in Pack(sentences, current) ==> c != ""
    decreases |sentences|
  {
    if sentences != [] {
      var s := sentences[0];
      if Closes(current, s) {
        PackNoEmpty(sentences[1..], s);
      } else {
        PackNoEmpty(sentences[1..], current + s);
      }
    }
  }

  lemma {:induction false} PackBound(sentences: seq<string>, current: string, pool: seq<string>)
    requires |current| <= ChunkLimit || current in pool
    requires forall i :: 0 <= i < |sentences| ==> sentences[i] in pool
    ensures forall c :: c in Pack(sentences, current) ==> |c| <= ChunkLimit || c in pool
    decreases |sentences|
  {
    if sentences != [] {
      var s := sentences[0];
      assert s in pool;
      if Closes(current, s) {
        PackBound(sentences[1..], s, pool);
      } else {
        if |current + s| > ChunkLimit {
          assert current + s == s;
        }
        PackBound(sentences[1..], current + s, pool);
      }
    }
  }

  /** A chunk longer than 500 characters is a single sentence. */
  lemma PackChunksBounded(sentences: seq<string>)
    ensures forall c :: c in Pack(sentences, "") ==> |c| <= ChunkLimit || c in sentences
  {
    PackBound(sentences, "", sentences);
  }

  lemma {:induction false} PackFirst(sentences: seq<string>, current: string)
    requires current != ""
    ensures |Pack(sentences, current)| >= 1 && |Pack(sentences, current)[0]| >= |current|
    ensures Pack(sentences, current)[0][..|current|] == current
    decreases |sentences|
  {
    if sentences != [] {
      var s := sentences[0];
      if !(Closes(current, s)) {
        PackFirst(sentences[1..], current + s);
        var first := Pack(sentences[1..], current + s)[0];
        assert first[..|current|] == first[..|current + s|][..|current|] == (current + s)[..|current|];
      }
    }
  }

  /** No two neighbouring chunks would fit together in 500 characters. */
  predicate Greedy(chunks: seq<string>) {
    forall k :: 0 <= k < |chunks| - 1 ==> |chunks[k]| + |chunks[k + 1]| > ChunkLimit
  }

  /** The packing is greedy. */
  lemma {:induction false} PackGreedy(sentences: seq<string>, current: string)
    ensures Greedy(Pack(sentences, current))
    decreases |sentences|
  {
    if sentences != [] {
      var s := sentences[0];
      if Closes(current, s) {
        PackGreedy(sentences[1..], s);
        var rest := Pack(sentences[1..], s);
        var r := Pack(sentences, current);
        assert r == [current] + rest;
        if s != "" {
          PackFirst(sentences[1..], s);
        }
        forall k | 0 <= k < |r| - 1 ensures |r[k]| + |r[k + 1]| > ChunkLimit {
          if k > 0 {
            assert r[k] == rest[k - 1] && r[k + 1] == rest[k];
          } else {
            assert r[0] == current && r[1] == rest[0];
            assert |current| + |s| > ChunkLimit;
            assert |rest[0]| >= |s|;
          }
        }
      } else {
        PackGreedy(sentences[1..], current + s);
        assert Pack(sentences, current) == Pack(sentences[1..], current + s);
      }
    }
  }

  // ------------------------------------------------------------------ paragraphs

  /** `paragraphs.map(p => p.trim())`. */
  function TrimAll(s: seq<string>): (r: seq<string>)
    ensures |r| == |s|
    ensures forall i :: 0 <= i < |s| ==> r[i] == Trim(s[i])
  {
    Sequences.Map(s, Trim)
  }

  lemma TrimAllCons(x: string, xs: seq<string>)
    ensures TrimAll([x] + xs) == [Trim(x)] + TrimAll(xs)
  {
    Sequences.MapCons(x, xs, Trim);
  }

  lemma PackUnfold(sentences: seq<string>, current: string)
    requires sentences != []
    ensures Closes(current, sentences[0]) ==>
              TrimAll(Pack(sentences, current)) == [Trim(current)] + TrimAll(Pack(sentences[1..], sentences[0]))
    ensures !(Closes(current, sentences[0])) ==>
              TrimAll(Pack(sentences, current)) == TrimAll(Pack(sentences[1..], current + sentences[0]))
  {
    if Closes(current, sentences[0]) {
      assert Pack(sentences, current) == [current] + Pack(sentences[1..], sentences[0]);
      TrimAllCons(current, Pack(sentences[1..], sentences[0]));
    } else {
      assert Pack(sentences, current) == Pack(sentences[1..], current + sentences[0]);
    }
  }

  lemma TrimAllTwice(s: seq<string>)
    ensures TrimAll(TrimAll(s)) == TrimAll(s)
  {
    forall i | 0 <= i < |s| ensures Trim(Trim(s[i])) == Trim(s[i]) {
      TrimIdempotent(s[i]);
    }
  }

  /** The sentence list the packing loop walks: the regular expression's matches, or the whole text when nothing matched. */
  function SentencesOf(content: string, matched: Option<seq<string>>): seq<string> {
    match matched
    case Some(m) => m
    case None => [content]
  }

  /** One step of the packing loop at sentence `i`, with `current` in hand. */
  lemma PackStep(sentences: seq<string>, i: nat, current: string)
    requires i < |sentences|
    ensures Closes(current, sentences[i]) ==>
              TrimAll(Pack(sentences[i..], current)) == [Trim(current)] + TrimAll(Pack(sentences[i + 1..], sentences[i]))
    ensures !(Closes(current, sentences[i])) ==>
              TrimAll(Pack(sentences[i..], current)) == TrimAll(Pack(sentences[i + 1..], current + sentences[i]))
  {
    PackUnfold(sentences[i..], current);
    assert sentences[i..][0] == sentences[i] && sentences[i..][1..] == sentences[i + 1..];
  }

  /** The end of the packing loop: what is left in hand is the last chunk. */
  lemma PackEnd(sentences: seq<string>, current: string)
    ensures TrimAll(Pack(sentences[|sentences|..], current)) == if current != "" then [Trim(current)] else []
  {
    assert sentences[|sentences|..] == [];
  }

  /**
   * The packing loop: walks the sentences with the chunk in hand, pushing
   * it trimmed whenever the next sentence would take it past 500
   * characters, and pushes what is left at the end.
   */
  method PackSentences(sentences: seq<string>) returns (chunks: seq<string>)
    ensures chunks == TrimAll(Pack(sentences, ""))
  {
    chunks := [];
    var current := "";
    for i := 0 to |sentences|
      invariant TrimAll(Pack(sentences, "")) == chunks + TrimAll(Pack(sentences[i..], current))
    {
      var sentence := sentences[i];
      PackStep(sentences, i, current);
      if Closes(current, sentence) {
        var rest := TrimAll(Pack(sentences[i + 1..], sentence));
        assert chunks + ([Trim(current)] + rest) == (chunks + [Trim(current)]) + rest;
        chunks := chunks + [Trim(current)];
        current := sentence;
      } else {
        current := current + sentence;
      }
    }
    PackEnd(sentences, current);
    if current != "" {
      chunks := chunks + [Trim(current)];
    }
  }

  /**
   * The body's paragraphs as displayed, each trimmed: the blank-line pieces
   * when there are several, otherwise the greedy packing of the sentences
   * (`matched` is the result of the sentence regular expression, which is
   * not part of this model).
   */
  method Paragraphs(content: string, matched: Option<seq<string>>) returns (shown: seq<string>)
    ensures |SplitBlank(content)| > 1 ==> shown == TrimAll(SplitBlank(content))
    ensures |SplitBlank(content)| == 1 ==> shown == TrimAll(Pack(SentencesOf(content, matched), ""))
  {
    var paragraphs := SplitBlank(content);
    if |paragraphs| == 1 {
      var sentences := SentencesOf(content, matched);
      paragraphs := PackSentences(sentences);
      TrimAllTwice(Pack(sentences, ""));
    }
    shown := TrimAll(paragraphs);
  }

  // ------------------------------------------------------------------ time ago

  const Minute := 60
  const Hour := 3600
  const Day := 86400
  const Month := 2592000
  const Year := 31536000

  datatype Elapsed =
    | JustNow
    | MinutesAgo(n: nat)
    | HoursAgo(n: nat)
    | DaysAgo(n: nat)
    | MonthsAgo(n: nat)
    | YearsAgo(n: nat)

  /**
   * `getTimeAgo` for an age in whole seconds: the largest unit that fits
   * more than once, counted in whole units; a minute or less, and any
   * negative age, is "Just now".
   */
  function TimeAgo(seconds: int): (e: Elapsed)
    ensures e.YearsAgo? <==> seconds > Year
    ensures e.MonthsAgo? <==> Month < seconds <= Year
    ensures e.DaysAgo? <==> Day < seconds <= Month
    ensures e.HoursAgo? <==> Hour < seconds <= Day
    ensures e.MinutesAgo? <==> Minute < seconds <= Hour
    ensures e.JustNow? <==> seconds <= Minute
    ensures e.YearsAgo? ==> e.n >= 1 && e.n * Year <= seconds < (e.n + 1) * Year
    ensures e.MonthsAgo? ==> 1 <= e.n <= 12 && e.n * Month <= seconds < (e.n + 1) * Month
    ensures e.DaysAgo? ==> 1 <= e.n <= 30 && e.n * Day <= seconds < (e.n + 1) * Day
    ensures e.HoursAgo? ==> 1 <= e.n <= 24 && e.n * Hour <= seconds < (e.n + 1) * Hour
    ensures e.MinutesAgo? ==> 1 <= e.n <= 60 && e.n * Minute <= seconds < (e.n + 1) * Minute
  {
    if seconds > Year then YearsAgo(seconds / Year)
    else if seconds > Month then MonthsAgo(seconds / Month)
    else if seconds > Day then DaysAgo(seconds / Day)
    else if seconds > Hour then HoursAgo(seconds / Hour)
    else if seconds > Minute then MinutesAgo(seconds / Minute)
    else JustNow
  }

  /** The text `getTimeAgo` returns. */
  function TimeAgoText(seconds: int): (r: string)
    ensures r == "Just now" <==> seconds <= Minute
  {
    var e := TimeAgo(seconds);
    if e.JustNow? then "Just now"
    else
      var r := Decimal(e.n) + UnitText(e);
      assert r[0] == Decimal(e.n)[0];
      r
  }

  function UnitText(e: Elapsed): string {
    match e
    case YearsAgo(_) => " years ago"
    case MonthsAgo(_) => " months ago"
    case DaysAgo(_) => " days ago"
    case HoursAgo(_) => "h ago"
    case MinutesAgo(_) => "m ago"
    case JustNow => ""
  }

  // ------------------------------------------------------------------ like button

  datatype PressResult =
    | LoginPrompted
    | Busy
    | NoCommentId
    | LikeRequest(commentId: Server.CommentId)

  /** A comment's like button: its `disabled` flag, its `liked` class and the count it shows. */
  class LikeButton {
    var disabled: bool
    var liked: bool
    var likes: int
    /** The comment's `data-comment-id`; empty when it has none. */
    const commentId: Server.CommentId

    constructor (commentId: Server.CommentId, likes: int, liked: bool)
      ensures this.commentId == commentId && this.likes == likes && this.liked == liked && !disabled
    {
      this.commentId := commentId;
      this.likes := likes;
      this.liked := liked;
      disabled := false;
    }

    /**
     * The synchronous part of `toggleLike`: without a user it only prompts
     * for login; while a request is in flight it does nothing; without a
     * comment id it gives up with the button enabled; otherwise it disables
     * the button and sends the request. The shown state is left alone.
     */
    method Press(signedIn: bool) returns (r: PressResult)
      modifies this
      ensures !signedIn ==> r == LoginPrompted && unchanged(this)
      ensures signedIn && old(disabled) ==> r == Busy && unchanged(this)
      ensures signedIn && !old(disabled) && commentId == "" ==> r == NoCommentId && unchanged(this)
      ensures signedIn && !old(disabled) && commentId != "" ==>
                r == LikeRequest(commentId) && disabled && liked == old(liked) && likes == old(likes)
    {
      if !signedIn {
        return LoginPrompted;
      }
      if disabled {
        return Busy;
      }
      disabled := true;
      if commentId == "" {
        disabled := false;
        return NoCommentId;
      }
      r := LikeRequest(commentId);
    }

    /**
     * The end of the request: a successful reply's count and flag are shown;
     * an error reply or a failed request (`None`) leaves the shown state as it
     * was. Either way the button is enabled again.
     */
    method Settle(reply: Option<Server.Reply>)
      modifies this
      ensures !disabled
      ensures reply.Some? && reply.value.LikeState? ==> likes == reply.value.likes && liked == reply.value.hasLiked
      ensures !(reply.Some? && reply.value.LikeState?) ==> likes == old(likes) && liked == old(liked)
    {
      if reply.Some? && reply.value.LikeState? {
        likes := reply.value.likes;
        liked := reply.value.hasLiked;
      }
      disabled := false;
    }
  }

  // ------------------------------------------------------------------ comment box

  datatype PostDecision = PromptLogin | AskForText | SendComment(text: string)

  /**
   * The guards of `addComment`: no user means a login prompt, a blank input
   * a reminder; only otherwise is the trimmed text sent.
   */
  function CommentGuard(signedIn: bool, input: string): (d: PostDecision)
    ensures !signedIn ==> d == PromptLogin
    ensures signedIn && AllSpace(input) ==> d == AskForText
    ensures d.SendComment? <==> signedIn && !AllSpace(input)
    ensures d.SendComment? ==>
              && d.text == Trim(input) && d.text != ""
              && !IsSpace(d.text[0]) && !IsSpace(d.text[|d.text| - 1])
  {
    TrimEmpty(input);
    if !signedIn then PromptLogin
    else
      var text := Trim(input);
      if text == "" then AskForText else SendComment(text)
  }

  /** `parseInt(commentCount.textContent) || 0`: an unreadable count reads as 0. */
  function CountShown(count: Option<int>): int {
    count.GetOr(0)
  }

  /** The comment list under an article: the input box, the texts listed newest first and the count shown. */
  class CommentBox {
    var input: string
    var listed: seq<string>
    /** The count text as a number; `None` when it does not parse. */
    var count: Option<int>

    constructor (listed: seq<string>)
      ensures this.listed == listed && input == "" && count == Some(|listed|)
    {
      this.listed := listed;
      input := "";
      count := Some(|listed|);
    }

    /** A successful post: the comment goes on top, the input is cleared and the count rises by one. */
    method Posted(text: string)
      modifies this
      ensures listed == [text] + old(listed)
      ensures input == ""
      ensures count == Some(CountShown(old(count)) + 1)
    {
      listed := [text] + listed;
      input := "";
      count := Some(CountShown(count) + 1);
    }
  }
}
