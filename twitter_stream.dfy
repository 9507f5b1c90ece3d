/**
 * The polling bot of src/twitter_stream.py: subject extraction from a
 * mention, the last-seen-id cursor file, one `process_mentions` pass (the
 * reply text is only produced, never posted) and one round of the main
 * loop with its rate-limit cool-down in 10-second sleeps. Twitter's answers
 * and the clock are parameters; `time.sleep` calls are returned as the list
 * of their arguments.
 */
module TwitterStream {
  import opened Common
  import opened Text
  import RateLimit

  /** Wait assumed when a 429 error carries no usable reset: 20 minutes. */
  const DefaultWait: int := 20 * 60
  /** Extra seconds slept after a rate-limit reset. */
  const RetryBuffer: int := 60
  /** Length of one sleep of the cool-down loop. */
  const SleepStep: int := 10
  /** Pause between two polls. */
  const PollInterval: int := 1200
  /** Pause after any other error. */
  const ErrorPause: int := 60

  /** The characters `lstrip(":,-.@!# ")` removes. */
  const LeadingPunctuation: set<char> := {':', ',', '-', '.', '@', '!', '#', ' '}

  // ------------------------------------------------------------ get_seconds_until_reset

  /**
   * `get_seconds_until_reset` at time `now`: the seconds to the reset in
   * the `x-rate-limit-reset` header of the error's response, never negative;
   * 20 minutes when there is no response, no such header, an empty one, or
   * one that is not an integer.
   */
  function GetSecondsUntilReset(response: Option<RateLimit.Headers>, now: int): (r: int)
    ensures r >= 0
  {
    if response.Some? then
      match RateLimit.HeaderInt(response.value, RateLimit.ResetHeader)
      case Some(reset) => Max(reset - now, 0)
      case None => DefaultWait
    else DefaultWait
  }

  /**
   * The wait agrees with the rate-limit header reading: the seconds left
   * to a readable reset, 20 minutes otherwise.
   */
  lemma SecondsUntilResetAgrees(response: Option<RateLimit.Headers>, now: int)
    ensures response.Some? ==>
              GetSecondsUntilReset(response, now) == RateLimit.ExtractRateLimitInfo(response.value, now).resetInSeconds.GetOr(DefaultWait)
    ensures response.None? ==> GetSecondsUntilReset(response, now) == DefaultWait
  {
  }

  /** A reset header written from an integer gives the seconds to that reset, or 0 once it has passed. */
  lemma SecondsUntilWrittenReset(headers: RateLimit.Headers, reset: int, now: int)
    requires headers == map[RateLimit.ResetHeader := IntToString(reset)]
    ensures GetSecondsUntilReset(Some(headers), now) == if reset > now then reset - now else 0
  {
    ParseIntRoundTrip(reset);
    IntToStringStart(reset);
  }

  // ------------------------------------------------------------ the cool-down loop

  /**
   * The cool-down after a 429 error: `sleep_left = seconds_left + 60`, then
   * sleeps of 10 seconds while `sleep_left > 0`. The total slept is that
   * figure rounded up to a multiple of 10; nothing when it is not positive.
   */
  method SleepUntilReset(secondsLeft: int) returns (slept: seq<int>)
    ensures forall i :: 0 <= i < |slept| ==> slept[i] == SleepStep
    ensures Sum(slept) == SleepStep * |slept|
    ensures secondsLeft + RetryBuffer <= 0 ==> slept == []
    ensures secondsLeft + RetryBuffer > 0 ==> Sum(slept) - SleepStep < secondsLeft + RetryBuffer <= Sum(slept)
  {
    var sleepLeft := secondsLeft + RetryBuffer;
    slept := [];
    while sleepLeft > 0
      invariant forall i :: 0 <= i < |slept| ==> slept[i] == SleepStep
      invariant Sum(slept) == SleepStep * |slept|
      invariant sleepLeft == secondsLeft + RetryBuffer - Sum(slept)
      invariant slept != [] ==> sleepLeft > -SleepStep
      decreases sleepLeft
    {
      SumAppend(slept, SleepStep);
      slept := slept + [SleepStep];
      sleepLeft := sleepLeft - SleepStep;
    }
  }

  // ------------------------------------------------------------ the cursor file

  /**
   * What `get_last_seen_id` makes of the file: None when it does not exist,
   * the integer it holds otherwise; content that is not an integer raises
   * ValueError, since only a missing file is caught.
   */
  function ReadLastSeen(content: Option<string>): (r: Result<Option<int>>)
    ensures content.None? ==> r == Ok(None)
    ensures content.Some? ==> (r.Ok? <==> ParseInt(content.value).Some?)
    ensures r.Err? ==> r.error == "ValueError"
  {
    if content.None? then Ok(None)
    else
      match ParseInt(content.value)
      case None => Err("ValueError")
      case Some(n) => Ok(Some(n))
  }

  /** The id written is the id read back. */
  lemma LastSeenRoundTrip(n: int)
    ensures ReadLastSeen(Some(IntToString(n))) == Ok(Some(n))
  {
    ParseIntRoundTrip(n);
  }

  /** Content that is not a number, such as an empty file, is an error rather than "no cursor". */
  lemma EmptyCursorRaises()
    ensures ReadLastSeen(Some("")) == Err("ValueError")
  {
  }

  /** `last_seen_id.txt`. */
  class LastSeenFile {
    /** The file's content; None while it does not exist. */
    var content: Option<string>

    constructor (existing: Option<string>)
      ensures content == existing
    {
      content := existing;
    }

    function GetLastSeenId(): Result<Option<int>>
      reads this
    {
      ReadLastSeen(content)
    }

    /** `set_last_seen_id`: overwrites the file with `str(id)`. */
    method SetLastSeenId(id: int)
      modifies this
      ensures content == Some(IntToString(id))
      ensures GetLastSeenId() == Ok(Some(id))
    {
      content := Some(IntToString(id));
      LastSeenRoundTrip(id);
    }
  }

  // ------------------------------------------------------------ extract_keyword

  /** `re.split(r'[@#]', s)[0]`: s up to its first `@` or `#`. */
  function BeforeTag(s: string): string {
    if s == [] || s[0] == '@' || s[0] == '#' then [] else [s[0]] + BeforeTag(s[1..])
  }

  /** The piece before the first tag is a prefix of s without `@` or `#`, and all of s when s has neither. */
  lemma {:induction false} BeforeTagSpec(s: string)
    ensures |BeforeTag(s)| <= |s| && BeforeTag(s) == s[..|BeforeTag(s)|]
    ensures '@' !in BeforeTag(s) && '#' !in BeforeTag(s)
    ensures '@' !in s && '#' !in s ==> BeforeTag(s) == s
  {
    if s != [] && s[0] != '@' && s[0] != '#' {
      BeforeTagSpec(s[1..]);
      assert s == [s[0]] + s[1..];
    }
  }

  /**
   * `extract_keyword` for the account `handle`: removes every `@handle`
   * that ends at a word boundary, in any case; strips whitespace and then
   * leading `:,-.@!# `; keeps what precedes the next `@` or `#`; strips
   * again. None when nothing is left.
   */
  function ExtractKeyword(text: string, handle: string): (r: Option<string>)
    ensures r.Some? ==> r.value != []
  {
    var subject := LStripChars(Strip(RemoveMentions(text, handle)), LeadingPunctuation);
    var cut := Strip(BeforeTag(subject));
    if cut == [] then None else Some(cut)
  }

  /**
   * A subject holds no `@` or `#`, starts and ends with a character that is
   * not whitespace, and is a piece of the text with the mentions removed.
   */
  lemma ExtractKeywordClean(text: string, handle: string)
    requires ExtractKeyword(text, handle).Some?
    ensures var k := ExtractKeyword(text, handle).value;
            && '@' !in k && '#' !in k
            && !IsSpace(k[0]) && !IsSpace(k[|k| - 1])
            && Contains(RemoveMentions(text, handle), k)
  {
    var removed := RemoveMentions(text, handle);
    var piece := BeforeTag(LStripChars(Strip(removed), LeadingPunctuation));
    CutIsPiece(removed);
    CutHasNoTag(LStripChars(Strip(removed), LeadingPunctuation));
    StripShape(piece);
  }

  /** What is left after the stripping and the cut is a piece of the text it came from. */
  lemma CutIsPiece(removed: string)
    ensures Contains(removed, Strip(BeforeTag(LStripChars(Strip(removed), LeadingPunctuation))))
  {
    var stripped := Strip(removed);
    var subject := LStripChars(stripped, LeadingPunctuation);
    var piece := BeforeTag(subject);
    StripContained(removed);
    LStripCharsContained(stripped);
    BeforeTagContained(subject);
    StripContained(piece);
    ContainsTrans(removed, stripped, subject);
    ContainsTrans(removed, subject, piece);
    ContainsTrans(removed, piece, Strip(piece));
  }

  lemma StripContained(s: string)
    ensures Contains(s, Strip(s))
  {
    StripShape(s);
    assert OccursAt(s, Strip(s), StripOffset(s));
  }

  lemma LStripCharsContained(s: string)
    ensures Contains(s, LStripChars(s, LeadingPunctuation))
  {
    var t := LStripChars(s, LeadingPunctuation);
    LStripCharsShape(s, LeadingPunctuation);
    assert OccursAt(s, t, |s| - |t|);
  }

  lemma BeforeTagContained(s: string)
    ensures Contains(s, BeforeTag(s))
  {
    BeforeTagSpec(s);
    assert OccursAt(s, BeforeTag(s), 0);
  }

  /** A piece of a piece of a is a piece of a. */
  lemma ContainsTrans(a: string, b: string, c: string)
    requires Contains(a, b) && Contains(b, c)
    ensures Contains(a, c)
  {
    var i :| 0 <= i <= |a| - |b| && OccursAt(a, b, i);
    var j :| 0 <= j <= |b| - |c| && OccursAt(b, c, j);
    SliceOfSlice(a, b, c, i, j);
    assert OccursAt(a, c, i + j);
  }

  /** The cut, once stripped, holds no `@` or `#`. */
  lemma CutHasNoTag(subject: string)
    ensures '@' !in Strip(BeforeTag(subject)) && '#' !in Strip(BeforeTag(subject))
  {
    var piece := BeforeTag(subject);
    BeforeTagSpec(subject);
    StripShape(piece);
    SliceChars(piece, Strip(piece), StripOffset(piece));
  }

  /** c at offset j in b, and b at offset i in a, put c at offset i + j in a. */
  lemma SliceOfSlice(a: string, b: string, c: string, i: int, j: int)
    requires 0 <= i && i + |b| <= |a| && b == a[i..i + |b|]
    requires 0 <= j && j + |c| <= |b| && c == b[j..j + |c|]
    ensures c == a[i + j..i + j + |c|]
  {
    assert forall t :: 0 <= t < |c| ==> c[t] == b[j + t] == a[i + j + t];
  }

  /** The characters of a piece of b are characters of b. */
  lemma SliceChars(b: string, c: string, j: int)
    requires 0 <= j && j + |c| <= |b| && c == b[j..j + |c|]
    ensures forall ch :: ch in c ==> ch in b
  {
    forall ch | ch in c
      ensures ch in b
    {
      var t :| 0 <= t < |c| && c[t] == ch;
      assert b[j + t] == ch;
    }
  }

  /**
   * A reply of the expected form `@handle <topic>` yields the topic, for a
   * topic without `@` or `#`, with no whitespace at its ends and not
   * starting with one of the punctuation characters.
   */
  lemma ExtractKeywordOfMention(handle: string, topic: string)
    requires handle != [] && IsWordChar(handle[|handle| - 1])
    requires topic != [] && '@' !in topic && '#' !in topic
    requires !IsSpace(topic[0]) && !IsSpace(topic[|topic| - 1]) && topic[0] !in LeadingPunctuation
    ensures ExtractKeyword("@" + handle + " " + topic, handle) == Some(topic)
  {
    var text := "@" + handle + " " + topic;
    SameCaseRefl(handle);
    assert text[1..1 + |handle|] == handle;
    assert text[1 + |handle|] == ' ';
    assert MentionAtStart(text, handle);
    assert text[1 + |handle|..] == " " + topic;
    RemoveMentionsNoAt(" " + topic, handle);
    assert RemoveMentions(text, handle) == " " + topic;
    assert (" " + topic)[1..] == topic;
    assert LStrip(" " + topic) == topic;
    StripUnpadded(topic);
    BeforeTagSpec(topic);
  }

  lemma SameCaseRefl(s: string)
    ensures SameIgnoringCase(s, s)
  {
  }

  // ------------------------------------------------------------ process_mentions

  /** A mention as `get_users_mentions` returns it. */
  datatype Tweet = Tweet(id: int, text: string)

  /** The outcome of `get_users_mentions`: a 429 error (with its response headers, if any), any other error, or the data. */
  datatype MentionsCall = TooManyRequests(response: Option<RateLimit.Headers>) | CallFailed | Data(tweets: seq<Tweet>)

  /** `generate_eli5_response`: the placeholder answer naming the subject. */
  function GenerateEli5Response(subject: string): (r: string)
    ensures Contains(r, subject)
  {
    var r := "Here's an ELI5 explanation for '" + subject + "': [your AI-powered answer here!]";
    assert OccursAt(r, subject, 32);
    r
  }

  /** The tweets in reverse of the order returned: oldest first. */
  function Reversed(ts: seq<Tweet>): (r: seq<Tweet>)
    ensures |r| == |ts|
  {
    if ts == [] then [] else [ts[|ts| - 1]] + Reversed(ts[..|ts| - 1])
  }

  lemma {:induction false} ReversedAt(ts: seq<Tweet>, k: int)
    requires 0 <= k < |ts|
    ensures Reversed(ts)[k] == ts[|ts| - 1 - k]
  {
    if k > 0 {
      ReversedAt(ts[..|ts| - 1], k - 1);
    }
  }

  /** The answers produced for a run of tweets, one per tweet that yields a subject. */
  function Responses(ts: seq<Tweet>, handle: string): seq<string> {
    if ts == [] then []
    else
      var k := |ts| - 1;
      Responses(ts[..k], handle) +
        match ExtractKeyword(ts[k].text, handle)
        case Some(subject) => [GenerateEli5Response(subject)]
        case None => []
  }

  lemma {:induction false} ResponsesBound(ts: seq<Tweet>, handle: string)
    ensures |Responses(ts, handle)| <= |ts|
  {
    if ts != [] {
      ResponsesBound(ts[..|ts| - 1], handle);
    }
  }

  /** The ids of a run of tweets, in order. */
  function Ids(ts: seq<Tweet>): (r: seq<int>)
    ensures |r| == |ts|
  {
    if ts == [] then [] else Ids(ts[..|ts| - 1]) + [ts[|ts| - 1].id]
  }

  lemma {:induction false} IdsAt(ts: seq<Tweet>, k: int)
    requires 0 <= k < |ts|
    ensures Ids(ts)[k] == ts[k].id
  {
    if k < |ts| - 1 {
      IdsAt(ts[..|ts| - 1], k);
    }
  }

  /** The cursor ends on the first tweet returned, the newest: it is written last. */
  lemma CursorEndsOnFirst(ts: seq<Tweet>)
    requires ts != []
    ensures Ids(Reversed(ts))[|ts| - 1] == ts[0].id
  {
    IdsAt(Reversed(ts), |ts| - 1);
    ReversedAt(ts, |ts| - 1);
  }

  /**
   * `process_mentions` for the account `handle`. Reading the cursor may
   * raise; the call is made with `since_id` only for a truthy cursor and
   * its errors propagate; an empty answer changes nothing. Otherwise the
   * tweets are visited oldest first: an answer is produced for each subject
   * found, and the cursor is written after every tweet, with a subject or
   * not. Returns the error raised, the `since_id` sent, the answers and the
   * ids written, in order.
   */
  method ProcessMentions(file: LastSeenFile, handle: string, call: MentionsCall)
    returns (raised: Option<string>, since: Option<int>, responses: seq<string>, written: seq<int>)
    modifies file
    ensures old(file.GetLastSeenId()).Err? ==>
              raised == Some("ValueError") && since == None && written == [] && file.content == old(file.content)
    ensures old(file.GetLastSeenId()).Ok? ==> since == SinceParam(old(file.GetLastSeenId()).value)
    ensures old(file.GetLastSeenId()).Ok? && call.TooManyRequests? ==> raised == Some("TooManyRequests")
    ensures old(file.GetLastSeenId()).Ok? && call.CallFailed? ==> raised == Some("Exception")
    ensures old(file.GetLastSeenId()).Ok? && call.Data? ==>
              && raised == None
              && responses == Responses(Reversed(call.tweets), handle)
              && written == Ids(Reversed(call.tweets))
              && file.content == if call.tweets == [] then old(file.content) else Some(IntToString(call.tweets[0].id))
    ensures !(old(file.GetLastSeenId()).Ok? && call.Data?) ==> responses == [] && written == [] && file.content == old(file.content)
  {
    responses := [];
    written := [];
    since := None;
    var lastSeen := file.GetLastSeenId();
    if lastSeen.Err? {
      return Some("ValueError"), since, responses, written;
    }
    since := SinceParam(lastSeen.value);
    match call {
      case TooManyRequests(_) =>
        return Some("TooManyRequests"), since, responses, written;
      case CallFailed =>
        return Some("Exception"), since, responses, written;
      case Data(tweets) =>
        responses, written := ProcessTweets(file, handle, tweets);
        raised := None;
    }
  }

  /** The data branch of `process_mentions`: nothing for no tweets, else the visit oldest first. */
  method ProcessTweets(file: LastSeenFile, handle: string, tweets: seq<Tweet>) returns (responses: seq<string>, written: seq<int>)
    modifies file
    ensures responses == Responses(Reversed(tweets), handle)
    ensures written == Ids(Reversed(tweets))
    ensures file.content == if tweets == [] then old(file.content) else Some(IntToString(tweets[0].id))
  {
    if tweets == [] {
      return [], [];
    }
    var ordered := Reversed(tweets);
    responses, written := VisitAll(file, ordered, handle);
    ReversedAt(tweets, |tweets| - 1);
  }

  lemma VisitStep(ts: seq<Tweet>, i: int, handle: string)
    requires 0 <= i < |ts|
    ensures Responses(ts[..i + 1], handle) == Responses(ts[..i], handle) +
              match ExtractKeyword(ts[i].text, handle)
              case Some(subject) => [GenerateEli5Response(subject)]
              case None => []
    ensures Ids(ts[..i + 1]) == Ids(ts[..i]) + [ts[i].id]
  {
    assert ts[..i + 1][..i] == ts[..i];
  }

  /** The loop of `process_mentions` over the tweets in visiting order: each one's answer, then its cursor write. */
  method VisitAll(file: LastSeenFile, ordered: seq<Tweet>, handle: string) returns (responses: seq<string>, written: seq<int>)
    requires ordered != []
    modifies file
    ensures responses == Responses(ordered, handle)
    ensures written == Ids(ordered)
    ensures file.content == Some(IntToString(ordered[|ordered| - 1].id))
  {
    responses := [];
    written := [];
    var i := 0;
    while i < |ordered|
      invariant 0 <= i <= |ordered|
      invariant responses == Responses(ordered[..i], handle)
      invariant written == Ids(ordered[..i])
      invariant i > 0 ==> file.content == Some(IntToString(ordered[i - 1].id))
    {
      VisitStep(ordered, i, handle);
      var subject := ExtractKeyword(ordered[i].text, handle);
      if subject.Some? {
        responses := responses + [GenerateEli5Response(subject.value)];
      }
      file.SetLastSeenId(ordered[i].id);
      written := written + [ordered[i].id];
      i := i + 1;
    }
    assert ordered[..i] == ordered;
  }

  // ------------------------------------------------------------ the main loop

  /**
   * One round of the main loop: `process_mentions`, then the 20-minute
   * poll pause. A 429 error is cooled down in 10-second sleeps until the
   * reset plus 60 seconds; any other error costs a 60-second pause.
   * Returns the sleeps. The cursor ends on the newest tweet of a
   * non-empty answer and is otherwise left as it was.
   */
  method PollOnce(file: LastSeenFile, handle: string, call: MentionsCall, now: int)
    returns (slept: seq<int>)
    modifies file
    ensures old(file.GetLastSeenId()).Ok? && call.Data? ==> slept == [PollInterval]
    ensures old(file.GetLastSeenId()).Ok? && call.TooManyRequests? ==>
              var total := GetSecondsUntilReset(call.response, now) + RetryBuffer;
              && (forall i :: 0 <= i < |slept| ==> slept[i] == SleepStep)
              && Sum(slept) - SleepStep < total <= Sum(slept)
    ensures old(file.GetLastSeenId()).Err? || call.CallFailed? ==> slept == [ErrorPause]
    ensures old(file.GetLastSeenId()).Ok? && call.Data? && call.tweets != [] ==>
              file.content == Some(IntToString(call.tweets[0].id))
    ensures !(old(file.GetLastSeenId()).Ok? && call.Data? && call.tweets != []) ==> file.content == old(file.content)
  {
    var raised, since, responses, written := ProcessMentions(file, handle, call);
    if raised == None {
      slept := [PollInterval];
    } else if raised == Some("TooManyRequests") {
      var secondsLeft := GetSecondsUntilReset(call.response, now);
      slept := SleepUntilReset(secondsLeft);
    } else {
      slept := [ErrorPause];
    }
  }
}
