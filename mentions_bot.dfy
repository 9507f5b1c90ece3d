/**
 * The mentions collector of src/main2.py: the cursor file, the CSV log of
 * mentions with its seen-id set, the rate-limit status check, the mention
 * fetch with its user lookups in batches, and one `fetch_mentions` run.
 * Twitter's answers are parameters; `time.sleep` calls are returned as the
 * list of their arguments.
 */
module MentionsBot {
  import opened Common
  import opened Text
  import opened Json
  import RateLimit

  /** Extra seconds waited after a rate-limit reset. */
  const WaitBuffer: int := 30
  /** Most ids one `get_users` call accepts. */
  const BatchSize: nat := 100
  const Header: seq<string> := ["timestamp", "tweet_id", "author_id", "username", "text"]

  // ------------------------------------------------------------ Config

  /** The settings `Config.__init__` reads from the environment (None when unset). */
  datatype Config = Config(
    apiKey: Option<string>, apiSecret: Option<string>, accessToken: Option<string>, accessTokenSecret: Option<string>,
    userId: Option<string>, lastSeenFile: string, mentionsCsv: string)

  /** A set, non-empty environment value. */
  predicate Set(v: Option<string>) {
    v.Some? && v.value != []
  }

  /** `_validate_config`: the user id, then the four credentials, are required; ValueError otherwise. */
  function ValidateConfig(c: Config): (r: Result<Config>)
    ensures r.Ok? <==> Set(c.userId) && Set(c.apiKey) && Set(c.apiSecret) && Set(c.accessToken) && Set(c.accessTokenSecret)
    ensures r.Ok? ==> r.value == c
    ensures r.Err? ==> r.error == "ValueError"
  {
    if !Set(c.userId) then Err("ValueError")
    else if !(Set(c.apiKey) && Set(c.apiSecret) && Set(c.accessToken) && Set(c.accessTokenSecret)) then Err("ValueError")
    else Ok(c)
  }

  // ------------------------------------------------------------ LastSeenIdManager

  /** `os.path.basename`: what follows the last `/`. */
  function Basename(p: string): string {
    if p == [] || p[|p| - 1] == '/' then [] else Basename(p[..|p| - 1]) + [p[|p| - 1]]
  }

  /** The base name holds no `/` and ends the path. */
  lemma {:induction false} BasenameSpec(p: string)
    ensures '/' !in Basename(p)
    ensures EndsWith(p, Basename(p))
  {
    if p != [] && p[|p| - 1] != '/' {
      var q := p[..|p| - 1];
      BasenameSpec(q);
      var b := Basename(q);
      assert Basename(p) == b + [p[|p| - 1]];
      assert p == q + [p[|p| - 1]];
      assert q[|q| - |b|..] == b;
      assert p[|q| - |b|..] == q[|q| - |b|..] + [p[|p| - 1]];
    }
  }

  /** The cursor file always sits directly inside `data/`, whatever directories the configured name carries. */
  lemma CursorPathInData(configured: string)
    ensures var path := "data/" + Basename(configured);
            path[..5] == "data/" && '/' !in path[5..]
  {
    BasenameSpec(configured);
    assert ("data/" + Basename(configured))[5..] == Basename(configured);
  }

  /** What `get_last_seen_id` makes of the file: the integer it holds; None for a missing file or any other content. */
  function ReadCursor(content: Option<string>): Option<int> {
    if content.None? then None else ParseInt(content.value)
  }

  /** The cursor written for n is read back as n. */
  lemma CursorRoundTrip(n: int)
    ensures ReadCursor(Some(IntToString(n))) == Some(n)
  {
    ParseIntRoundTrip(n);
  }

  class LastSeenIdManager {
    /** `data/` + the base name of the configured file. */
    const path: string
    /** The file's content; None while it does not exist. */
    var content: Option<string>

    constructor (configured: string, existing: Option<string>)
      ensures path == "data/" + Basename(configured) && content == existing
    {
      path := "data/" + Basename(configured);
      content := existing;
    }

    /** `get_last_seen_id`: never raises; a missing file or unreadable content gives None. */
    function GetLastSeenId(): Option<int>
      reads this
    {
      ReadCursor(content)
    }

    /** `set_last_seen_id`: overwrites the file with `str(n)`; a failed write (`writable` false) is logged and ignored. */
    method SetLastSeenId(n: int, writable: bool)
      modifies this
      ensures content == if writable then Some(IntToString(n)) else old(content)
      ensures writable ==> GetLastSeenId() == Some(n)
    {
      if writable {
        content := Some(IntToString(n));
        CursorRoundTrip(n);
      }
    }
  }

  // ------------------------------------------------------------ MentionsLogger

  type Line = seq<string>

  /** A mention as `get_mentions` returns it. */
  datatype Tweet = Tweet(id: int, authorId: Option<int>, text: string, username: Option<string>)

  /** `.replace('\n', ' ')`. */
  function ReplaceNewlines(s: string): (r: string)
    ensures |r| == |s|
  {
    if s == [] then [] else [if s[0] == '\n' then ' ' else s[0]] + ReplaceNewlines(s[1..])
  }

  /** `.replace('\r', '')`. */
  function DropReturns(s: string): string {
    if s == [] then [] else (if s[0] == '\r' then [] else [s[0]]) + DropReturns(s[1..])
  }

  /** The text column: newlines become spaces, carriage returns go. */
  function Sanitize(s: string): string {
    DropReturns(ReplaceNewlines(s))
  }

  lemma {:induction false} ReplaceNewlinesSpec(s: string)
    ensures '\n' !in ReplaceNewlines(s)
    ensures forall c :: c != '\n' && c != ' ' ==> (c in ReplaceNewlines(s) <==> c in s)
    ensures '\n' !in s ==> ReplaceNewlines(s) == s
  {
    if s != [] {
      ReplaceNewlinesSpec(s[1..]);
      assert s == [s[0]] + s[1..];
    }
  }

  lemma {:induction false} DropReturnsSpec(s: string)
    ensures '\r' !in DropReturns(s)
    ensures forall c :: c != '\r' ==> (c in DropReturns(s) <==> c in s)
    ensures '\r' !in s ==> DropReturns(s) == s
  {
    if s != [] {
      DropReturnsSpec(s[1..]);
      assert s == [s[0]] + s[1..];
    }
  }

  /** The logged text holds no line break; every other character of the text is kept, and a text without line breaks is logged as it is. */
  lemma SanitizeSpec(s: string)
    ensures '\n' !in Sanitize(s) && '\r' !in Sanitize(s)
    ensures forall c :: c != '\n' && c != '\r' && c != ' ' ==> (c in Sanitize(s) <==> c in s)
    ensures '\n' !in s && '\r' !in s ==> Sanitize(s) == s
  {
    ReplaceNewlinesSpec(s);
    DropReturnsSpec(ReplaceNewlines(s));
  }

  /** How `csv.writer` writes an optional value: None is the empty cell. */
  function IntCell(v: Option<int>): string {
    if v.Some? then IntToString(v.value) else ""
  }

  function StrCell(v: Option<string>): string {
    v.GetOr("")
  }

  /** The line `log_mentions` writes for a tweet. */
  function LoggedLine(t: Tweet, stamp: string): Line {
    [stamp, IntToString(t.id), IntCell(t.authorId), StrCell(t.username), Sanitize(t.text)]
  }

  /** The seen ids after logging a run of tweets: each new id is added. */
  function SeenAfter(seen: set<string>, ts: seq<Tweet>): set<string> {
    if ts == [] then seen
    else
      var prev := SeenAfter(seen, ts[..|ts| - 1]);
      prev + {IntToString(ts[|ts| - 1].id)}
  }

  /** The lines written for a run of tweets: one per tweet whose id is not yet seen. */
  function LinesAfter(seen: set<string>, ts: seq<Tweet>, stamp: string): seq<Line> {
    if ts == [] then []
    else
      var k := |ts| - 1;
      LinesAfter(seen, ts[..k], stamp) + if IntToString(ts[k].id) in SeenAfter(seen, ts[..k]) then [] else [LoggedLine(ts[k], stamp)]
  }

  /** The seen set grows by exactly as many ids as lines are written: repeats, within the batch or from before, are skipped. */
  lemma {:induction false} LoggedCount(seen: set<string>, ts: seq<Tweet>, stamp: string)
    ensures |SeenAfter(seen, ts)| == |seen| + |LinesAfter(seen, ts, stamp)|
  {
    if ts != [] {
      var k := |ts| - 1;
      LoggedCount(seen, ts[..k], stamp);
      var prev := SeenAfter(seen, ts[..k]);
      var id := IntToString(ts[k].id);
      if id !in prev {
        assert |prev + {id}| == |prev| + 1;
      } else {
        assert prev + {id} == prev;
      }
    }
  }

  /** The ids of a run of tweets as the strings the log keeps. */
  function Keys(ts: seq<Tweet>): (r: seq<string>)
    ensures |r| == |ts|
  {
    if ts == [] then [] else Keys(ts[..|ts| - 1]) + [IntToString(ts[|ts| - 1].id)]
  }

  lemma {:induction false} KeysAt(ts: seq<Tweet>, k: int)
    requires 0 <= k < |ts|
    ensures Keys(ts)[k] == IntToString(ts[k].id)
  {
    if k < |ts| - 1 {
      KeysAt(ts[..|ts| - 1], k);
    }
  }

  /** After logging, the seen ids are those seen before plus the ids of all the tweets. */
  lemma {:induction false} SeenAfterMembers(seen: set<string>, ts: seq<Tweet>, id: string)
    ensures id in SeenAfter(seen, ts) <==> id in seen || id in Keys(ts)
  {
    if ts != [] {
      SeenAfterMembers(seen, ts[..|ts| - 1], id);
    }
  }

  lemma LoggedStep(seen: set<string>, ts: seq<Tweet>, i: nat, stamp: string)
    requires i < |ts|
    ensures SeenAfter(seen, ts[..i + 1]) == SeenAfter(seen, ts[..i]) + {IntToString(ts[i].id)}
    ensures LinesAfter(seen, ts[..i + 1], stamp) == LinesAfter(seen, ts[..i], stamp) +
              if IntToString(ts[i].id) in SeenAfter(seen, ts[..i]) then [] else [LoggedLine(ts[i], stamp)]
  {
    assert ts[..i + 1][..i] == ts[..i];
  }

  /** The second cells of the rows that have at least two. */
  function ColumnTwo(rows: seq<Line>): set<string> {
    if rows == [] then {}
    else ColumnTwo(rows[..|rows| - 1]) + if |rows[|rows| - 1]| > 1 then {rows[|rows| - 1][1]} else {}
  }

  lemma {:induction false} ColumnTwoMembers(rows: seq<Line>, id: string)
    ensures id in ColumnTwo(rows) <==> exists k :: 0 <= k < |rows| && |rows[k]| > 1 && rows[k][1] == id
  {
    if rows != [] {
      var n := |rows| - 1;
      ColumnTwoMembers(rows[..n], id);
      if exists k :: 0 <= k < n && |rows[..n][k]| > 1 && rows[..n][k][1] == id {
        var k :| 0 <= k < n && |rows[..n][k]| > 1 && rows[..n][k][1] == id;
        assert rows[k] == rows[..n][k];
      }
      if exists k :: 0 <= k < |rows| && |rows[k]| > 1 && rows[k][1] == id {
        var k :| 0 <= k < |rows| && |rows[k]| > 1 && rows[k][1] == id;
        if k < n {
          assert rows[..n][k] == rows[k];
        }
      }
    }
  }

  class MentionsLogger {
    /** The lines of the mentions CSV; None while it does not exist. */
    var file: Option<seq<Line>>
    /** `seen_tweet_ids`. */
    var seen: set<string>

    /** `MentionsLogger.__init__`: an empty seen set, then `_load_existing_ids` (`readable`: whether the file opens). */
    constructor (existing: Option<seq<Line>>, readable: bool)
      ensures file == existing
      ensures seen == if existing.Some? && readable && existing.value != [] then ColumnTwo(existing.value[1..]) else {}
    {
      file := existing;
      seen := {};
      new;
      LoadExistingIds(readable);
    }

    /**
     * `_load_existing_ids`: skips the first row and adds the second cell of
     * every later row that has one. A file that cannot be read is logged
     * and ignored.
     */
    method LoadExistingIds(readable: bool)
      modifies this
      ensures file == old(file)
      ensures seen == if file.Some? && readable && file.value != [] then old(seen) + ColumnTwo(file.value[1..]) else old(seen)
    {
      if file.None? || !readable || file.value == [] {
        return;
      }
      var rows := file.value[1..];
      var i := 0;
      while i < |rows|
        invariant 0 <= i <= |rows|
        invariant file == old(file)
        invariant seen == old(seen) + ColumnTwo(rows[..i])
      {
        assert rows[..i + 1][..i] == rows[..i];
        if |rows[i]| > 1 {
          seen := seen + {rows[i][1]};
        }
        i := i + 1;
      }
      assert rows[..i] == rows;
    }

    /**
     * `log_mentions`, at time `stamp`: nothing for an empty list; a header
     * first when the file is new; then one line per tweet whose id is not
     * seen yet, recording the id. Returns the number of lines written; 0
     * when the file cannot be opened (`writable` false).
     */
    method LogMentions(mentions: seq<Tweet>, stamp: string, writable: bool) returns (added: int)
      modifies this
      ensures mentions == [] || !writable ==> added == 0 && file == old(file) && seen == old(seen)
      ensures mentions != [] && writable ==>
                && added == |LinesAfter(old(seen), mentions, stamp)|
                && seen == SeenAfter(old(seen), mentions)
                && file == Some((if old(file).None? then [Header] else old(file).value) + LinesAfter(old(seen), mentions, stamp))
    {
      if mentions == [] || !writable {
        return 0;
      }
      var lines := if file.Some? then file.value else [Header];
      var newSeen;
      newSeen, lines, added := LogNew(seen, lines, mentions, stamp);
      seen := newSeen;
      file := Some(lines);
    }
  }

  /** The loop of `log_mentions`: each tweet not seen yet is appended and its id recorded. */
  method LogNew(seen: set<string>, lines: seq<Line>, mentions: seq<Tweet>, stamp: string)
    returns (seenAfter: set<string>, linesAfter: seq<Line>, added: int)
    ensures seenAfter == SeenAfter(seen, mentions)
    ensures linesAfter == lines + LinesAfter(seen, mentions, stamp)
    ensures added == |LinesAfter(seen, mentions, stamp)|
  {
    seenAfter := seen;
    linesAfter := lines;
    added := 0;
    var i := 0;
    while i < |mentions|
      invariant 0 <= i <= |mentions|
      invariant seenAfter == SeenAfter(seen, mentions[..i])
      invariant linesAfter == lines + LinesAfter(seen, mentions[..i], stamp)
      invariant added == |LinesAfter(seen, mentions[..i], stamp)|
    {
      LoggedStep(seen, mentions, i, stamp);
      var tweetId := IntToString(mentions[i].id);
      if tweetId !in seenAfter {
        linesAfter := linesAfter + [LoggedLine(mentions[i], stamp)];
        seenAfter := seenAfter + {tweetId};
        added := added + 1;
      }
      i := i + 1;
    }
    assert mentions[..i] == mentions;
  }

  // ------------------------------------------------------------ check_rate_limit

  /** What `check_rate_limit` returns: a report on one endpoint, or just "not limited". */
  datatype RateStatus =
    | NotLimited
    | Report(endpoint: string, limit: Json, remaining: Json, reset: Json, resetInSeconds: int, isRateLimited: bool)

  /** The report on the mentions endpoint; an entry that is not a dict, or a non-numeric reset or remaining, raises. */
  function MentionsReport(endpoint: string, data: Json, now: int): (r: Result<RateStatus>)
    ensures r.Ok? ==> r.value.Report? && r.value.endpoint == endpoint && r.value.resetInSeconds >= 0
    ensures r.Ok? && r.value.isRateLimited ==>
              r.value.resetInSeconds > 0 && AsNumber(r.value.remaining).Some? && AsNumber(r.value.remaining).value <= 0
  {
    if !data.JObj? then Err("AttributeError")
    else
      var limit := GetOr(data.fields, "limit", JInt(0));
      var remaining := GetOr(data.fields, "remaining", JInt(0));
      var reset := GetOr(data.fields, "reset", JInt(0));
      match AsNumber(reset)
      case None => Err("TypeError")
      case Some(t) =>
        var resetIn := Max(t - now, 0);
        match AsNumber(remaining)
        case None => Err("TypeError")
        case Some(m) => Ok(Report(endpoint, limit, remaining, reset, resetIn, m <= 0 && resetIn > 0))
  }

  /** The first `users` endpoint whose name contains "mentions" decides; None when there is none. */
  function FirstMentions(users: seq<(string, Json)>, now: int): (r: Result<Option<RateStatus>>)
    ensures r.Ok? && r.value.Some? ==>
              var s := r.value.value;
              && s.Report? && s.resetInSeconds >= 0
              && (s.isRateLimited ==> s.resetInSeconds > 0 && AsNumber(s.remaining).Some? && AsNumber(s.remaining).value <= 0)
  {
    if users == [] then Ok(None)
    else if Contains(users[0].0, "mentions") then
      match MentionsReport(users[0].0, users[0].1, now)
      case Err(e) => Err(e)
      case Ok(s) => Ok(Some(s))
    else FirstMentions(users[1..], now)
  }

  /** The first endpoint of one resource with nothing remaining and a reset still ahead. */
  function EndpointsLimited(endpoints: seq<(string, Json)>, now: int): (r: Result<Option<RateStatus>>)
    ensures r.Ok? && r.value.Some? ==>
              var s := r.value.value;
              s.Report? && s.isRateLimited && s.resetInSeconds > 0 && s.remaining == JInt(0)
  {
    if endpoints == [] then Ok(None)
    else
      var data := endpoints[0].1;
      if !data.JObj? then Err("AttributeError")
      else
        match AsNumber(GetOr(data.fields, "remaining", JInt(1)))
        case None => Err("TypeError")
        case Some(m) =>
          if m <= 0 then
            var reset := GetOr(data.fields, "reset", JInt(0));
            match AsNumber(reset)
            case None => Err("TypeError")
            case Some(t) =>
              if Max(t - now, 0) > 0 then
                Ok(Some(Report(endpoints[0].0, GetOr(data.fields, "limit", JInt(0)), JInt(0), reset, Max(t - now, 0), true)))
              else EndpointsLimited(endpoints[1..], now)
          else EndpointsLimited(endpoints[1..], now)
  }

  /** The same search over every resource, in order. */
  function ResourcesLimited(resources: seq<(string, Json)>, now: int): (r: Result<Option<RateStatus>>)
    ensures r.Ok? && r.value.Some? ==>
              var s := r.value.value;
              s.Report? && s.isRateLimited && s.resetInSeconds > 0 && s.remaining == JInt(0)
  {
    if resources == [] then Ok(None)
    else if !resources[0].1.JObj? then Err("AttributeError")
    else
      match EndpointsLimited(resources[0].1.fields, now)
      case Err(e) => Err(e)
      case Ok(found) => if found.Some? then Ok(found) else ResourcesLimited(resources[1..], now)
  }

  /**
   * An entry the second tier reads without raising: a dict whose
   * `remaining` (default 1) is a number, and whose `reset` (default 0) is
   * one too when nothing remains.
   */
  predicate Readable(data: Json) {
    && data.JObj?
    && AsNumber(GetOr(data.fields, "remaining", JInt(1))).Some?
    && (AsNumber(GetOr(data.fields, "remaining", JInt(1))).value <= 0 ==>
          AsNumber(GetOr(data.fields, "reset", JInt(0))).Some?)
  }

  /** An entry with nothing remaining (default 1) and its reset after `now`. */
  predicate Exhausted(data: Json, now: int) {
    && data.JObj?
    && AsNumber(GetOr(data.fields, "remaining", JInt(1))).Some?
    && AsNumber(GetOr(data.fields, "remaining", JInt(1))).value <= 0
    && AsNumber(GetOr(data.fields, "reset", JInt(0))).Some?
    && AsNumber(GetOr(data.fields, "reset", JInt(0))).value > now
  }

  /** The report the second tier gives for an exhausted entry: remaining forced to 0, limited. */
  function ExhaustedReport(endpoint: string, data: Json, now: int): RateStatus
    requires Exhausted(data, now)
  {
    var reset := GetOr(data.fields, "reset", JInt(0));
    Report(endpoint, GetOr(data.fields, "limit", JInt(0)), JInt(0), reset, AsNumber(reset).value - now, true)
  }

  /** The first exhausted entry is found, provided every entry before it is readable. */
  lemma {:induction false} EndpointsLimitedFirst(endpoints: seq<(string, Json)>, k: nat, now: int)
    requires k < |endpoints| && Exhausted(endpoints[k].1, now)
    requires forall j :: 0 <= j < k ==> Readable(endpoints[j].1) && !Exhausted(endpoints[j].1, now)
    ensures EndpointsLimited(endpoints, now) == Ok(Some(ExhaustedReport(endpoints[k].0, endpoints[k].1, now)))
  {
    if k > 0 {
      forall j | 0 <= j < k - 1
        ensures Readable(endpoints[1..][j].1) && !Exhausted(endpoints[1..][j].1, now)
      {
        assert endpoints[1..][j] == endpoints[j + 1];
      }
      assert Readable(endpoints[0].1) && !Exhausted(endpoints[0].1, now);
      EndpointsLimitedFirst(endpoints[1..], k - 1, now);
    }
  }

  /** With every entry readable and none exhausted, nothing is found. */
  lemma {:induction false} EndpointsLimitedNone(endpoints: seq<(string, Json)>, now: int)
    requires forall j :: 0 <= j < |endpoints| ==> Readable(endpoints[j].1) && !Exhausted(endpoints[j].1, now)
    ensures EndpointsLimited(endpoints, now) == Ok(None)
  {
    if endpoints != [] {
      assert Readable(endpoints[0].1) && !Exhausted(endpoints[0].1, now);
      forall j | 0 <= j < |endpoints| - 1
        ensures Readable(endpoints[1..][j].1) && !Exhausted(endpoints[1..][j].1, now)
      {
        assert endpoints[1..][j] == endpoints[j + 1];
      }
      EndpointsLimitedNone(endpoints[1..], now);
    }
  }

  /**
   * Whatever is found is an entry of the input: the first exhausted one,
   * every entry before it readable and not exhausted.
   */
  lemma {:induction false} EndpointsLimitedFound(endpoints: seq<(string, Json)>, now: int) returns (k: nat)
    requires EndpointsLimited(endpoints, now).Ok? && EndpointsLimited(endpoints, now).value.Some?
    ensures k < |endpoints| && Exhausted(endpoints[k].1, now)
    ensures forall j :: 0 <= j < k ==> Readable(endpoints[j].1) && !Exhausted(endpoints[j].1, now)
    ensures EndpointsLimited(endpoints, now).value.value == ExhaustedReport(endpoints[k].0, endpoints[k].1, now)
  {
    if Exhausted(endpoints[0].1, now) {
      k := 0;
    } else {
      var k' := EndpointsLimitedFound(endpoints[1..], now);
      k := k' + 1;
      forall j | 0 <= j < k
        ensures Readable(endpoints[j].1) && !Exhausted(endpoints[j].1, now)
      {
        if j > 0 {
          assert endpoints[j] == endpoints[1..][j - 1];
        }
      }
    }
  }

  /** A scan of `a + b` is the scan of `a`, then, if that finds nothing, the scan of `b`. */
  lemma {:induction false} EndpointsLimitedConcat(a: seq<(string, Json)>, b: seq<(string, Json)>, now: int)
    ensures EndpointsLimited(a + b, now) ==
              match EndpointsLimited(a, now)
              case Err(e) => Err(e)
              case Ok(Some(s)) => Ok(Some(s))
              case Ok(None) => EndpointsLimited(b, now)
  {
    if a != [] {
      assert (a + b)[0] == a[0];
      assert (a + b)[1..] == a[1..] + b;
      EndpointsLimitedConcat(a[1..], b, now);
    } else {
      assert a + b == b;
    }
  }

  /** The endpoints of every dict resource, in order. */
  function AllEndpoints(resources: seq<(string, Json)>): seq<(string, Json)> {
    if resources == [] then []
    else (if resources[0].1.JObj? then resources[0].1.fields else []) + AllEndpoints(resources[1..])
  }

  /** Over dict resources, the search is one scan of all their endpoints in order. */
  lemma {:induction false} ResourcesFlatten(resources: seq<(string, Json)>, now: int)
    requires forall i :: 0 <= i < |resources| ==> resources[i].1.JObj?
    ensures ResourcesLimited(resources, now) == EndpointsLimited(AllEndpoints(resources), now)
  {
    if resources != [] {
      assert resources[0].1.JObj?;
      forall i | 0 <= i < |resources| - 1
        ensures resources[1..][i].1.JObj?
      {
        assert resources[1..][i] == resources[i + 1];
      }
      ResourcesFlatten(resources[1..], now);
      EndpointsLimitedConcat(resources[0].1.fields, AllEndpoints(resources[1..]), now);
    }
  }

  /** A `resources` dict with no mentions entry under `users` (or no `users` at all). */
  predicate NoMentionsEntry(resources: seq<(string, Json)>) {
    match Get(resources, "users")
    case None => true
    case Some(users) => users.JObj? && forall j :: 0 <= j < |users.fields| ==> !Contains(users.fields[j].0, "mentions")
  }

  /** With no entry named like "mentions", the first tier decides nothing. */
  lemma {:induction false} FirstMentionsNone(users: seq<(string, Json)>, now: int)
    requires forall j :: 0 <= j < |users| ==> !Contains(users[j].0, "mentions")
    ensures FirstMentions(users, now) == Ok(None)
  {
    if users != [] {
      assert !Contains(users[0].0, "mentions");
      forall j | 0 <= j < |users| - 1
        ensures !Contains(users[1..][j].0, "mentions")
      {
        assert users[1..][j] == users[j + 1];
      }
      FirstMentionsNone(users[1..], now);
    }
  }

  /**
   * Without a mentions entry, the second tier decides: the report on the
   * scan of every endpoint in order when it finds one, and not limited when
   * it finds none or raises.
   */
  lemma SecondTierDecides(top: seq<(string, Json)>, resources: seq<(string, Json)>, now: int)
    requires Get(top, "resources") == Some(JObj(resources))
    requires NoMentionsEntry(resources)
    requires forall i :: 0 <= i < |resources| ==> resources[i].1.JObj?
    ensures CheckRateLimit(Ok(JObj(top)), now) ==
              match EndpointsLimited(AllEndpoints(resources), now) case Ok(Some(s)) => s case _ => NotLimited
  {
    var first: Result<Option<RateStatus>> :=
      match Get(resources, "users")
      case None => Ok(None)
      case Some(users) => if users.JObj? then FirstMentions(users.fields, now) else Err("AttributeError");
    assert first == Ok(None) by {
      if Get(resources, "users").Some? {
        FirstMentionsNone(Get(resources, "users").value.fields, now);
      }
    }
    ResourcesFlatten(resources, now);
  }

  /** Without a mentions entry, the first exhausted endpoint of any resource means limited, reported as found. */
  lemma CheckRateLimitExhausted(top: seq<(string, Json)>, resources: seq<(string, Json)>, k: nat, now: int)
    requires Get(top, "resources") == Some(JObj(resources))
    requires NoMentionsEntry(resources)
    requires forall i :: 0 <= i < |resources| ==> resources[i].1.JObj?
    requires k < |AllEndpoints(resources)| && Exhausted(AllEndpoints(resources)[k].1, now)
    requires forall j :: 0 <= j < k ==> Readable(AllEndpoints(resources)[j].1) && !Exhausted(AllEndpoints(resources)[j].1, now)
    ensures CheckRateLimit(Ok(JObj(top)), now) ==
              ExhaustedReport(AllEndpoints(resources)[k].0, AllEndpoints(resources)[k].1, now)
  {
    SecondTierDecides(top, resources, now);
    EndpointsLimitedFirst(AllEndpoints(resources), k, now);
  }

  /** Without a mentions entry and with no exhausted endpoint anywhere, not limited. */
  lemma CheckRateLimitClear(top: seq<(string, Json)>, resources: seq<(string, Json)>, now: int)
    requires Get(top, "resources") == Some(JObj(resources))
    requires NoMentionsEntry(resources)
    requires forall i :: 0 <= i < |resources| ==> resources[i].1.JObj?
    requires forall j :: 0 <= j < |AllEndpoints(resources)| ==> Readable(AllEndpoints(resources)[j].1) && !Exhausted(AllEndpoints(resources)[j].1, now)
    ensures CheckRateLimit(Ok(JObj(top)), now) == NotLimited
  {
    SecondTierDecides(top, resources, now);
    EndpointsLimitedNone(AllEndpoints(resources), now);
  }

  /** A failed `rate_limit_status()` call, or a reply that is not a dict, is read as not limited. */
  lemma CheckRateLimitFailure(status: Result<Json>, now: int)
    requires status.Err? || !status.value.JObj?
    ensures CheckRateLimit(status, now) == NotLimited
  {
  }

  /**
   * `check_rate_limit` on the result of `rate_limit_status()` at time
   * `now`: the mentions endpoint under `users` decides when there is one;
   * otherwise any exhausted endpoint with a reset ahead means limited;
   * otherwise, and on any error, not limited.
   */
  function CheckRateLimit(status: Result<Json>, now: int): (r: RateStatus)
    ensures r.Report? ==> r.resetInSeconds >= 0
    ensures r.Report? && r.isRateLimited ==>
              r.resetInSeconds > 0 && AsNumber(r.remaining).Some? && AsNumber(r.remaining).value <= 0
  {
    if status.Err? || !status.value.JObj? then NotLimited
    else
      match Get(status.value.fields, "resources")
      case None => NotLimited
      case Some(resources) =>
        if !resources.JObj? then NotLimited
        else
          var first: Result<Option<RateStatus>> :=
            match Get(resources.fields, "users")
            case None => Ok(None)
            case Some(users) => if users.JObj? then FirstMentions(users.fields, now) else Err("AttributeError");
          match first
          case Err(_) => NotLimited
          case Ok(Some(s)) => s
          case Ok(None) =>
            match ResourcesLimited(resources.fields, now)
            case Ok(Some(s)) => s
            case _ => NotLimited
  }

  /** The first endpoint named like "mentions" decides, whatever follows it. */
  lemma {:induction false} FirstMentionsDecides(users: seq<(string, Json)>, k: nat, now: int)
    requires k < |users| && Contains(users[k].0, "mentions")
    requires forall j :: 0 <= j < k ==> !Contains(users[j].0, "mentions")
    ensures FirstMentions(users, now) ==
              match MentionsReport(users[k].0, users[k].1, now) case Err(e) => Err(e) case Ok(s) => Ok(Some(s))
  {
    if k > 0 {
      assert !Contains(users[0].0, "mentions");
      forall j | 0 <= j < k - 1
        ensures !Contains(users[1..][j].0, "mentions")
      {
        assert users[1..][j] == users[j + 1];
      }
      FirstMentionsDecides(users[1..], k - 1, now);
    }
  }

  /**
   * A status whose `users` resource has a well-formed mentions entry is
   * decided by that entry alone: limited exactly when nothing remains and
   * the reset is ahead.
   */
  lemma MentionsEntryDecides(users: seq<(string, Json)>, k: nat, limit: int, remaining: int, reset: int, now: int)
    requires k < |users| && Contains(users[k].0, "mentions")
    requires forall j :: 0 <= j < k ==> !Contains(users[j].0, "mentions")
    requires users[k].1 == JObj([("limit", JInt(limit)), ("remaining", JInt(remaining)), ("reset", JInt(reset))])
    ensures CheckRateLimit(Ok(JObj([("resources", JObj([("users", JObj(users))]))])), now)
         == Report(users[k].0, JInt(limit), JInt(remaining), JInt(reset), Max(reset - now, 0), remaining <= 0 && reset - now > 0)
  {
    FirstMentionsDecides(users, k, now);
    WellFormedReport(users[k].0, limit, remaining, reset, now);
    var status := JObj([("resources", JObj([("users", JObj(users))]))]);
    assert Get(status.fields, "resources") == Some(JObj([("users", JObj(users))]));
  }

  /** The report on an entry holding the three numbers. */
  lemma WellFormedReport(endpoint: string, limit: int, remaining: int, reset: int, now: int)
    ensures MentionsReport(endpoint, JObj([("limit", JInt(limit)), ("remaining", JInt(remaining)), ("reset", JInt(reset))]), now)
         == Ok(Report(endpoint, JInt(limit), JInt(remaining), JInt(reset), Max(reset - now, 0), remaining <= 0 && reset - now > 0))
  {
    var f := [("limit", JInt(limit)), ("remaining", JInt(remaining)), ("reset", JInt(reset))];
    assert "limit" != "reset" by { assert "limit"[0] != "reset"[0]; }
    assert "remaining" != "reset" by { assert "remaining"[2] != "reset"[2]; }
    assert "remaining" != "limit" by { assert "remaining"[0] != "limit"[0]; }
    assert f[1..][1..] == [("reset", JInt(reset))];
    assert Get(f[1..][1..], "reset") == Some(JInt(reset));
    assert Get(f[1..], "reset") == Some(JInt(reset));
    assert Get(f, "reset") == Some(JInt(reset));
    assert Get(f, "remaining") == Some(JInt(remaining));
    assert Get(f, "limit") == Some(JInt(limit));
  }

  // ------------------------------------------------------------ get_mentions

  /** A tweet as the mentions endpoint returns it; absent attributes are None. */
  datatype RawTweet = RawTweet(id: int, authorId: Option<int>, text: Option<string>)

  /** The outcome of `get_users_mentions`: a 429 error (with its response headers, if any), any other error, or the data. */
  datatype MentionsResponse = TooManyRequests(response: Option<RateLimit.Headers>) | CallFailed | Data(tweets: seq<RawTweet>)

  /** The author ids of the tweets that carry one, in order. */
  function AuthorIds(ts: seq<RawTweet>): seq<int> {
    if ts == [] then []
    else AuthorIds(ts[..|ts| - 1]) + if ts[|ts| - 1].authorId.Some? then [ts[|ts| - 1].authorId.value] else []
  }

  /** `ids[i:i+100]` for i = 0, 100, 200, ...: the batches of the user lookup. */
  function Batches(ids: seq<int>): seq<seq<int>>
    decreases |ids|
  {
    if ids == [] then []
    else if |ids| <= BatchSize then [ids]
    else [ids[..BatchSize]] + Batches(ids[BatchSize..])
  }

  function Concat(parts: seq<seq<int>>): seq<int> {
    if parts == [] then [] else parts[0] + Concat(parts[1..])
  }

  /** The batches cover the ids in order; each holds 1 to 100 ids, and all but the last exactly 100. */
  lemma {:induction false} BatchesSpec(ids: seq<int>)
    ensures Concat(Batches(ids)) == ids
    ensures forall b :: 0 <= b < |Batches(ids)| ==> 0 < |Batches(ids)[b]| <= BatchSize
    ensures forall b :: 0 <= b < |Batches(ids)| - 1 ==> |Batches(ids)[b]| == BatchSize
    decreases |ids|
  {
    if |ids| > BatchSize {
      BatchesSpec(ids[BatchSize..]);
      var rest := Batches(ids[BatchSize..]);
      assert Batches(ids)[1..] == rest;
      assert ids[..BatchSize] + ids[BatchSize..] == ids;
    }
  }

  /** Records the users of one `get_users` answer, later entries winning. */
  function AddUsers(names: map<int, string>, users: seq<(int, string)>): map<int, string> {
    if users == [] then names
    else AddUsers(names, users[..|users| - 1])[users[|users| - 1].0 := users[|users| - 1].1]
  }

  /** The users recorded are those known before plus every user of the answer. */
  lemma {:induction false} AddUsersKeys(names: map<int, string>, users: seq<(int, string)>)
    ensures forall u :: u in AddUsers(names, users) <==> u in names || exists k :: 0 <= k < |users| && users[k].0 == u
  {
    if users != [] {
      var n := |users| - 1;
      AddUsersKeys(names, users[..n]);
      forall u
        ensures u in AddUsers(names, users) <==> u in names || exists k :: 0 <= k < |users| && users[k].0 == u
      {
        if exists k :: 0 <= k < |users| && users[k].0 == u {
          var k :| 0 <= k < |users| && users[k].0 == u;
          if k < n {
            assert users[..n][k] == users[k];
          }
        }
        if exists k :: 0 <= k < n && users[..n][k].0 == u {
          var k :| 0 <= k < n && users[..n][k].0 == u;
          assert users[k] == users[..n][k];
        }
      }
    }
  }

  /**
   * The user names collected over the batches, starting from `names`;
   * `lookup(batch)` is the answer's user list, None when the call raises,
   * which ends the lookup (the error is logged).
   */
  function NamesFrom(batches: seq<seq<int>>, lookup: seq<int> -> Option<seq<(int, string)>>, names: map<int, string>): map<int, string> {
    if batches == [] then names
    else
      match lookup(batches[0])
      case None => names
      case Some(users) => NamesFrom(batches[1..], lookup, AddUsers(names, users))
  }

  lemma NamesFromCons(batch: seq<int>, more: seq<seq<int>>, lookup: seq<int> -> Option<seq<(int, string)>>, names: map<int, string>)
    ensures NamesFrom([batch] + more, lookup, names) ==
              match lookup(batch) case None => names case Some(users) => NamesFrom(more, lookup, AddUsers(names, users))
  {
    assert ([batch] + more)[1..] == more;
  }

  /** The mention `get_mentions` builds from a raw tweet. */
  function Decorated(t: RawTweet, names: map<int, string>): (m: Tweet)
    ensures m.id == t.id && m.authorId == t.authorId
    ensures m.username.Some? <==> t.authorId.Some? && t.authorId.value in names
    ensures t.authorId.Some? && t.authorId.value in names ==> m.username == Some(names[t.authorId.value])
    ensures m.text == t.text.GetOr("")
  {
    Tweet(t.id, t.authorId, t.text.GetOr(""),
          if t.authorId.Some? && t.authorId.value in names then Some(names[t.authorId.value]) else None)
  }

  /** Every tweet decorated with the names found. */
  function DecoratedAll(ts: seq<RawTweet>, names: map<int, string>): (r: seq<Tweet>)
    ensures |r| == |ts| && forall k :: 0 <= k < |ts| ==> r[k] == Decorated(ts[k], names)
  {
    seq(|ts|, k requires 0 <= k < |ts| => Decorated(ts[k], names))
  }

  /** The mentions `get_mentions` returns for the data `tweets`. */
  function Mentions(tweets: seq<RawTweet>, lookup: seq<int> -> Option<seq<(int, string)>>): seq<Tweet> {
    DecoratedAll(tweets, NamesFrom(Batches(AuthorIds(tweets)), lookup, map[]))
  }

  /**
   * The user lookup of `get_mentions`: `get_users` on each batch of 100
   * ids, collecting the names; an error ends the loop. Returns the names and
   * the batches queried.
   */
  method FetchUsernames(ids: seq<int>, lookup: seq<int> -> Option<seq<(int, string)>>)
    returns (names: map<int, string>, queried: seq<seq<int>>)
    ensures names == NamesFrom(Batches(ids), lookup, map[])
    ensures |queried| <= |Batches(ids)| && queried == Batches(ids)[..|queried|]
    ensures |queried| < |Batches(ids)| ==> queried != [] && lookup(queried[|queried| - 1]).None?
  {
    var batches := Batches(ids);
    names := map[];
    var j := 0;
    while j < |batches|
      invariant 0 <= j <= |batches|
      invariant NamesFrom(batches, lookup, map[]) == NamesFrom(batches[j..], lookup, names)
    {
      assert batches[j..] == [batches[j]] + batches[j + 1..];
      NamesFromCons(batches[j], batches[j + 1..], lookup, names);
      match lookup(batches[j]) {
        case None =>
          queried := batches[..j + 1];
          return;
        case Some(users) =>
          names := RecordUsers(names, users);
      }
      j := j + 1;
    }
    queried := batches;
    assert batches[j..] == [];
  }

  /** Records one `get_users` answer in the name map. */
  method RecordUsers(names: map<int, string>, users: seq<(int, string)>) returns (r: map<int, string>)
    ensures r == AddUsers(names, users)
    ensures forall u :: u in r <==> u in names || exists k :: 0 <= k < |users| && users[k].0 == u
  {
    r := names;
    var j := 0;
    while j < |users|
      invariant 0 <= j <= |users|
      invariant r == AddUsers(names, users[..j])
    {
      assert users[..j + 1][..j] == users[..j];
      r := r[users[j].0 := users[j].1];
      j := j + 1;
    }
    assert users[..j] == users;
    AddUsersKeys(names, users);
  }

  /**
   * `get_mentions` for the cursor `sinceId` at time `now`. A 429 error is
   * re-raised after its wait is computed (a TypeError from that computation
   * escapes instead); any other error, or no data, gives []; otherwise each
   * tweet gets its author's name when the lookup found it. Also returns the
   * `since_id` sent and the batches looked up.
   */
  method GetMentions(sinceId: Option<int>, response: MentionsResponse, lookup: seq<int> -> Option<seq<(int, string)>>, now: int)
    returns (r: Result<seq<Tweet>>, since: Option<int>, queried: seq<seq<int>>)
    ensures since == SinceParam(sinceId)
    ensures response.TooManyRequests? ==>
              r == Err(if RateLimit.GetWaitTimeFromException(response.response, now).Err? then "TypeError" else "TooManyRequests")
    ensures response.CallFailed? ==> r == Ok([])
    ensures response.Data? ==>
              && r == Ok(Mentions(response.tweets, lookup))
              && (response.tweets == [] || AuthorIds(response.tweets) == [] ==> queried == [])
  {
    since := SinceParam(sinceId);
    queried := [];
    match response {
      case TooManyRequests(h) =>
        var wait := RateLimit.GetWaitTimeFromException(h, now);
        return (if wait.Err? then Err("TypeError") else Err("TooManyRequests")), since, queried;
      case CallFailed =>
        return Ok([]), since, queried;
      case Data(tweets) =>
        if tweets == [] {
          return Ok([]), since, queried;
        }
        var authorIds := AuthorIds(tweets);
        var names: map<int, string> := map[];
        if authorIds != [] {
          names, queried := FetchUsernames(authorIds, lookup);
        }
        var mentions: seq<Tweet> := [];
        var i := 0;
        while i < |tweets|
          invariant 0 <= i <= |tweets|
          invariant |mentions| == i
          invariant forall k :: 0 <= k < i ==> mentions[k] == Decorated(tweets[k], names)
        {
          mentions := mentions + [Decorated(tweets[i], names)];
          i := i + 1;
        }
        assert mentions == DecoratedAll(tweets, names);
        r := Ok(mentions);
    }
  }

  // ------------------------------------------------------------ fetch_mentions

  /** `max(tweet['id'] for tweet in mentions)`. */
  function MaxId(ms: seq<Tweet>): (m: int)
    requires ms != []
    ensures forall k :: 0 <= k < |ms| ==> ms[k].id <= m
    ensures exists k :: 0 <= k < |ms| && ms[k].id == m
  {
    if |ms| == 1 then ms[0].id
    else
      var rest := MaxId(ms[1..]);
      assert forall k :: 1 <= k < |ms| ==> ms[k] == ms[1..][k - 1];
      if ms[0].id < rest then rest else ms[0].id
  }

  /** The wait before the fetch: the reported reset plus 30 seconds when the mentions endpoint is limited. */
  method WaitIfLimited(status: Result<Json>, now: int) returns (slept: seq<int>)
    ensures var rate := CheckRateLimit(status, now);
            if rate.Report? && rate.isRateLimited then SleptInChunks(slept, rate.resetInSeconds + WaitBuffer, RateLimit.SleepChunk)
            else slept == []
  {
    var rate := CheckRateLimit(status, now);
    slept := [];
    if rate.Report? && rate.isRateLimited {
      slept := RateLimit.WaitForReset(rate.resetInSeconds, WaitBuffer);
    }
  }

  class Bot {
    const idManager: LastSeenIdManager
    const logger: MentionsLogger

    constructor (idManager: LastSeenIdManager, logger: MentionsLogger)
      ensures this.idManager == idManager && this.logger == logger
    {
      this.idManager := idManager;
      this.logger := logger;
    }

    /**
     * `fetch_mentions`: reads the cursor; waits out a rate limit that
     * `status` reports at time `now` (the reset plus 30 seconds, in sleeps
     * of at most 30); fetches the mentions since the cursor; logs them with
     * time stamp `stamp`; advances the cursor to the largest id fetched.
     * A 429 during the fetch is waited out the same way, with the clock
     * read again after the first wait: `fetchNow`; other errors are
     * logged. `csvWritable` and `cursorWritable` say whether the two files
     * can be written. Returns the two waits.
     */
    method FetchMentions(status: Result<Json>, response: MentionsResponse, lookup: seq<int> -> Option<seq<(int, string)>>,
                         now: int, fetchNow: int, stamp: string, csvWritable: bool, cursorWritable: bool)
      returns (since: Option<int>, before: seq<int>, after: seq<int>)
      modifies idManager, logger
      ensures since == SinceParam(old(idManager.GetLastSeenId()))
      ensures var rate := CheckRateLimit(status, now);
              if rate.Report? && rate.isRateLimited then SleptInChunks(before, rate.resetInSeconds + WaitBuffer, RateLimit.SleepChunk)
              else before == []
      ensures response.TooManyRequests? && RateLimit.GetWaitTimeFromException(response.response, fetchNow).Ok? ==>
                SleptInChunks(after, RateLimit.GetWaitTimeFromException(response.response, fetchNow).value + WaitBuffer, RateLimit.SleepChunk)
      ensures !(response.TooManyRequests? && RateLimit.GetWaitTimeFromException(response.response, fetchNow).Ok?) ==> after == []
      ensures !response.Data? || response.tweets == [] ==>
                idManager.content == old(idManager.content) && logger.file == old(logger.file) && logger.seen == old(logger.seen)
      ensures response.Data? && response.tweets != [] ==>
                var ms := Mentions(response.tweets, lookup);
                && idManager.content == (if cursorWritable then Some(IntToString(MaxId(ms))) else old(idManager.content))
                && (csvWritable ==>
                      && logger.seen == SeenAfter(old(logger.seen), ms)
                      && logger.file == Some((if old(logger.file).None? then [Header] else old(logger.file).value)
                                             + LinesAfter(old(logger.seen), ms, stamp)))
                && (!csvWritable ==> logger.file == old(logger.file) && logger.seen == old(logger.seen))
    {
      var lastSeen := idManager.GetLastSeenId();
      before := WaitIfLimited(status, now);
      after := [];
      var mentions, queried;
      mentions, since, queried := GetMentions(lastSeen, response, lookup, fetchNow);
      match mentions {
        case Err(e) =>
          if e == "TooManyRequests" {
            var wait := RateLimit.GetWaitTimeFromException(response.response, fetchNow);
            after := RateLimit.WaitForReset(wait.value, WaitBuffer);
          }
        case Ok(ms) =>
          if ms == [] {
            return;
          }
          var added := logger.LogMentions(ms, stamp, csvWritable);
          idManager.SetLastSeenId(MaxId(ms), cursorWritable);
      }
    }
  }
}
