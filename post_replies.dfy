/**
 * The reply pass over the CSV queue of mentions: take the oldest mentions,
 * extract each one's topic, ask the ELI5 service for an explanation, post
 * it to a Discord webhook, and delete from the CSV exactly the rows that
 * were posted. The CSV file is an in-memory list of rows; the HTTP calls
 * are parameters giving their outcome per mention.
 */
module PostReplies {
  import opened Common
  import opened Text
  import opened Json

  /** The account whose mentions are stripped from a tweet's text. */
  const AccountHandle := "eli5professor"
  /** Characters `lstrip` removes from the front of a topic. */
  const TopicLeadChars := {':', ',', '-', '.', '@', '!', '#', ' '}
  /** Mentions handled per pass. */
  const NumMentions := 10

  // ------------------------------------------------------------ topic extraction

  /** A `#` directly followed by a word character starts at position i. */
  predicate HashtagAt(s: string, i: int)
    requires 0 <= i < |s| - 1
  {
    s[i] == '#' && IsWordChar(s[i + 1])
  }

  /** No `#` in s is directly followed by a word character. */
  predicate NoHashtag(s: string) {
    forall i :: 0 <= i < |s| - 1 ==> !HashtagAt(s, i)
  }

  /** Length of the run of word characters at the start of s. */
  function WordRun(s: string): (n: nat)
    ensures n <= |s|
  {
    if s != [] && IsWordChar(s[0]) then 1 + WordRun(s[1..]) else 0
  }

  /** The run ends at the first character that is not a word character. */
  lemma {:induction false} WordRunStops(s: string)
    ensures WordRun(s) < |s| ==> !IsWordChar(s[WordRun(s)])
  {
    if s != [] && IsWordChar(s[0]) {
      WordRunStops(s[1..]);
    }
  }

  /** `re.sub(r'#\w+', '', s)`: one left-to-right pass deleting each `#` and the word that follows it. */
  function RemoveHashtags(s: string): (r: string)
    ensures |r| <= |s|
    decreases |s|
  {
    if s == [] then []
    else if s[0] == '#' && |s| > 1 && IsWordChar(s[1]) then RemoveHashtags(s[1 + WordRun(s[1..])..])
    else [s[0]] + RemoveHashtags(s[1..])
  }

  /** No hashtag survives the removal, and the result starts with a word character only if s does. */
  lemma {:induction false} RemoveHashtagsComplete(s: string)
    ensures NoHashtag(RemoveHashtags(s))
    ensures var r := RemoveHashtags(s); r != [] && IsWordChar(r[0]) ==> IsWordChar(s[0])
    decreases |s|
  {
    if s == [] {
    } else if s[0] == '#' && |s| > 1 && IsWordChar(s[1]) {
      WordRunStops(s[1..]);
      RemoveHashtagsComplete(s[1 + WordRun(s[1..])..]);
    } else {
      var tail := RemoveHashtags(s[1..]);
      RemoveHashtagsComplete(s[1..]);
      var r := [s[0]] + tail;
      assert RemoveHashtags(s) == r;
      forall i | 0 <= i < |r| - 1
        ensures !HashtagAt(r, i)
      {
        if i > 0 {
          assert HashtagAt(r, i) == HashtagAt(tail, i - 1);
        }
      }
    }
  }

  /** Text without `#` passes through unchanged. */
  lemma {:induction false} RemoveHashtagsNoHash(s: string)
    requires '#' !in s
    ensures RemoveHashtags(s) == s
    decreases |s|
  {
    if s != [] {
      RemoveHashtagsNoHash(s[1..]);
    }
  }

  /** A piece of a string without hashtags has none either. */
  lemma NoHashtagSlice(s: string, i: nat, j: nat)
    requires i <= j <= |s| && NoHashtag(s)
    ensures NoHashtag(s[i..j])
  {
    forall k | 0 <= k < j - i - 1
      ensures !HashtagAt(s[i..j], k)
    {
      assert !HashtagAt(s, i + k);
    }
  }

  /** Text with its hashtags removed and then stripped. */
  function StripHashtags(s: string): string {
    Strip(RemoveHashtags(s))
  }

  /** The mention text once mentions, hashtags and surrounding whitespace are gone. */
  function Cleaned(text: string): string {
    StripHashtags(RemoveMentions(text, AccountHandle))
  }

  /** Cleaned text holds no hashtag and has no whitespace at either end. */
  lemma CleanedShape(text: string)
    ensures NoHashtag(Cleaned(text))
    ensures var c := Cleaned(text); c != [] ==> !IsSpace(c[0]) && !IsSpace(c[|c| - 1])
  {
    var h := RemoveHashtags(RemoveMentions(text, AccountHandle));
    RemoveHashtagsComplete(RemoveMentions(text, AccountHandle));
    StripShape(h);
    NoHashtagSlice(h, StripOffset(h), StripOffset(h) + |Strip(h)|);
  }

  /** The topic left in cleaned text once the leading punctuation is dropped; None when nothing is left. */
  function TopicOf(c: string): Option<string> {
    var topic := LStripChars(c, TopicLeadChars);
    if topic == [] then None else Some(topic)
  }

  /**
   * `extract_topic`: drops `@eli5professor` mentions (any case, word-bounded),
   * then every hashtag, then surrounding whitespace, then leading
   * punctuation from ":,-.@!# ". An empty remainder is no topic.
   */
  function ExtractTopic(text: string): Option<string> {
    TopicOf(Cleaned(text))
  }

  /**
   * What `extract_topic` yields: no topic exactly when the cleaned text is
   * made only of leading punctuation (or is empty); otherwise a non-empty
   * tail of the cleaned text that starts with a character outside the
   * punctuation set, ends with a non-space, and holds no hashtag.
   */
  lemma ExtractTopicSpec(text: string)
    ensures ExtractTopic(text).None? <==> forall i :: 0 <= i < |Cleaned(text)| ==> Cleaned(text)[i] in TopicLeadChars
    ensures ExtractTopic(text).Some? ==>
              var t := ExtractTopic(text).value;
              && EndsWith(Cleaned(text), t)
              && t != [] && t[0] !in TopicLeadChars && !IsSpace(t[|t| - 1])
              && NoHashtag(t)
  {
    CleanedShape(text);
    TopicOfSpec(Cleaned(text));
  }

  /** The same facts for any text without hashtags or trailing whitespace. */
  lemma TopicOfSpec(c: string)
    requires NoHashtag(c) && (c != [] ==> !IsSpace(c[|c| - 1]))
    ensures TopicOf(c).None? <==> forall i :: 0 <= i < |c| ==> c[i] in TopicLeadChars
    ensures TopicOf(c).Some? ==>
              var t := TopicOf(c).value;
              && EndsWith(c, t)
              && t != [] && t[0] !in TopicLeadChars && !IsSpace(t[|t| - 1])
              && NoHashtag(t)
  {
    LStripCharsShape(c, TopicLeadChars);
    var topic := LStripChars(c, TopicLeadChars);
    if topic != [] {
      var n := |c| - |topic|;
      NoHashtagSlice(c, n, |c|);
      assert c[n..|c|] == topic;
      assert topic[|topic| - 1] == c[|c| - 1];
    }
  }

  /** A plain topic (no `@`, no `#`, no surrounding space, no leading punctuation) is kept as it is. */
  lemma ExtractTopicPlain(text: string)
    requires text != [] && '@' !in text && '#' !in text
    requires !IsSpace(text[0]) && !IsSpace(text[|text| - 1]) && text[0] !in TopicLeadChars
    ensures ExtractTopic(text) == Some(text)
  {
    RemoveMentionsNoAt(text, AccountHandle);
    RemoveHashtagsNoHash(text);
    StripUnpadded(text);
  }

  // ------------------------------------------------------------ remote calls

  /** Outcome of the POST to the ELI5 service: raised, or a status with a body that may not be JSON. */
  datatype ApiResponse = Unreachable | Response(status: int, body: Option<Json>)

  /** The canned reply when the service gives no explanation. */
  function Apology(topic: string): string {
    "Sorry, I couldn't explain '" + topic + "' right now. #ELI5"
  }

  /**
   * `generate_explanation`: the `explanation` field of a 200 response's
   * JSON object; the apology on any other status, a missing field, a body
   * that is not a JSON object, or an exception. The field's value is
   * returned as it is, whatever its type.
   */
  function GenerateExplanation(topic: string, response: ApiResponse): (r: Json)
    ensures (response.Response? && response.status == 200 && response.body.Some? && response.body.value.JObj?
              && Get(response.body.value.fields, "explanation").Some?)
            ==> r == Get(response.body.value.fields, "explanation").value
    ensures !(response.Response? && response.status == 200 && response.body.Some? && response.body.value.JObj?
              && Get(response.body.value.fields, "explanation").Some?)
            ==> r == JStr(Apology(topic))
  {
    match response
    case Response(200, Some(JObj(fields))) => GetOr(fields, "explanation", JStr(Apology(topic)))
    case _ => JStr(Apology(topic))
  }

  /** `send_message`: success iff the webhook answered 200 or 204; None is a raised exception. */
  function SendMessage(status: Option<int>): (ok: bool)
    ensures ok <==> status == Some(200) || status == Some(204)
  {
    match status
    case Some(code) => code == 200 || code == 204
    case None => false
  }

  // ------------------------------------------------------------ CSV queue

  /**
   * A CSV row as `csv.DictReader` yields it, for a row that fills every
   * column its header names: a key is present exactly when the header has
   * that column. The reader's None for the cells of a short row is not
   * part of this model.
   */
  type Row = map<string, string>

  /** `row.get(key, default)`. */
  function Cell(row: Row, key: string, default: string): string {
    if key in row then row[key] else default
  }

  /** The sort key of a row: its timestamp text, `""` when absent. */
  function Timestamp(row: Row): string {
    Cell(row, "timestamp", "")
  }

  predicate SortedByTimestamp(rows: seq<Row>) {
    forall i, j :: 0 <= i < j < |rows| ==> StrLe(Timestamp(rows[i]), Timestamp(rows[j]))
  }

  /** The rows with a given timestamp, in order. */
  function WithTimestamp(rows: seq<Row>, t: string): seq<Row> {
    if rows == [] then []
    else (if Timestamp(rows[0]) == t then [rows[0]] else []) + WithTimestamp(rows[1..], t)
  }

  /** Puts `row` before the first entry whose timestamp is not smaller. */
  function Insert(row: Row, sorted: seq<Row>): seq<Row> {
    if sorted == [] || StrLe(Timestamp(row), Timestamp(sorted[0])) then [row] + sorted
    else [sorted[0]] + Insert(row, sorted[1..])
  }

  /** `list.sort(key=timestamp)`: a stable sort, here an insertion sort. */
  function SortByTimestamp(rows: seq<Row>): seq<Row> {
    if rows == [] then [] else Insert(rows[0], SortByTimestamp(rows[1..]))
  }

  lemma {:induction false} InsertPermutes(row: Row, sorted: seq<Row>)
    ensures multiset(Insert(row, sorted)) == multiset(sorted) + multiset{row}
  {
    if !(sorted == [] || StrLe(Timestamp(row), Timestamp(sorted[0]))) {
      InsertPermutes(row, sorted[1..]);
      assert sorted == [sorted[0]] + sorted[1..];
    }
  }

  lemma {:induction false} InsertSorted(row: Row, sorted: seq<Row>)
    requires SortedByTimestamp(sorted)
    ensures SortedByTimestamp(Insert(row, sorted))
  {
    if sorted == [] || StrLe(Timestamp(row), Timestamp(sorted[0])) {
      var r := [row] + sorted;
      assert Insert(row, sorted) == r;
      forall i, j | 0 <= i < j < |r|
        ensures StrLe(Timestamp(r[i]), Timestamp(r[j]))
      {
        if i == 0 {
          if j > 1 {
            StrLeTrans(Timestamp(row), Timestamp(sorted[0]), Timestamp(sorted[j - 1]));
          }
        } else {
          assert r[i] == sorted[i - 1] && r[j] == sorted[j - 1];
        }
      }
    } else {
      var rest := Insert(row, sorted[1..]);
      var r := [sorted[0]] + rest;
      assert Insert(row, sorted) == r;
      InsertSorted(row, sorted[1..]);
      StrLeTotal(Timestamp(row), Timestamp(sorted[0]));
      InsertLowerBound(row, sorted[1..], Timestamp(sorted[0]));
      forall i, j | 0 <= i < j < |r|
        ensures StrLe(Timestamp(r[i]), Timestamp(r[j]))
      {
        assert r[j] == rest[j - 1];
        if i > 0 {
          assert r[i] == rest[i - 1];
        }
      }
    }
  }

  /** A lower bound of `row` and of every entry is a lower bound of every entry after the insertion. */
  lemma {:induction false} InsertLowerBound(row: Row, rows: seq<Row>, low: string)
    requires StrLe(low, Timestamp(row))
    requires forall k :: 0 <= k < |rows| ==> StrLe(low, Timestamp(rows[k]))
    ensures forall k :: 0 <= k < |Insert(row, rows)| ==> StrLe(low, Timestamp(Insert(row, rows)[k]))
  {
    if !(rows == [] || StrLe(Timestamp(row), Timestamp(rows[0]))) {
      InsertLowerBound(row, rows[1..], low);
      assert Insert(row, rows) == [rows[0]] + Insert(row, rows[1..]);
    }
  }

  /** Inserting keeps the relative order of every timestamp group, `row` going first in its own. */
  lemma {:induction false} InsertStable(row: Row, sorted: seq<Row>, t: string)
    ensures WithTimestamp(Insert(row, sorted), t)
         == (if Timestamp(row) == t then [row] else []) + WithTimestamp(sorted, t)
  {
    if sorted == [] || StrLe(Timestamp(row), Timestamp(sorted[0])) {
      assert Insert(row, sorted) == [row] + sorted;
      assert ([row] + sorted)[1..] == sorted;
    } else {
      var rest := Insert(row, sorted[1..]);
      assert Insert(row, sorted) == [sorted[0]] + rest;
      InsertStable(row, sorted[1..], t);
      assert Timestamp(sorted[0]) != Timestamp(row) by {
        StrLeRefl(Timestamp(row));
      }
      assert ([sorted[0]] + rest)[1..] == rest;
      var own := if Timestamp(row) == t then [row] else [];
      var head := if Timestamp(sorted[0]) == t then [sorted[0]] else [];
      assert own == [] || head == [];
      calc {
        WithTimestamp([sorted[0]] + rest, t);
        head + WithTimestamp(rest, t);
        head + (own + WithTimestamp(sorted[1..], t));
        own + (head + WithTimestamp(sorted[1..], t));
        own + WithTimestamp(sorted, t);
      }
    }
  }

  /** The sort orders by timestamp and is a permutation of its input. */
  lemma {:induction false} SortSortsAndPermutes(rows: seq<Row>)
    ensures SortedByTimestamp(SortByTimestamp(rows))
    ensures multiset(SortByTimestamp(rows)) == multiset(rows)
  {
    if rows != [] {
      SortSortsAndPermutes(rows[1..]);
      InsertSorted(rows[0], SortByTimestamp(rows[1..]));
      InsertPermutes(rows[0], SortByTimestamp(rows[1..]));
      assert rows == [rows[0]] + rows[1..];
    }
  }

  /** The sort is stable: rows with equal timestamps keep their file order. */
  lemma {:induction false} SortStable(rows: seq<Row>, t: string)
    ensures WithTimestamp(SortByTimestamp(rows), t) == WithTimestamp(rows, t)
  {
    if rows != [] {
      SortStable(rows[1..], t);
      InsertStable(rows[0], SortByTimestamp(rows[1..]), t);
    }
  }

  /**
   * `get_oldest_mentions` once the rows are read: the first n rows (Python's
   * `[:n]`) of the rows stably sorted on their timestamps. No row left out
   * is older than a selected one.
   */
  function Oldest(rows: seq<Row>, n: int): (r: seq<Row>)
    ensures |r| == if 0 <= n then (if n < |rows| then n else |rows|) else Max(|rows| + n, 0)
    ensures multiset(r) <= multiset(rows)
    ensures SortedByTimestamp(r)
    ensures forall i, j :: 0 <= i < |r| && 0 <= j < |rows| && rows[j] !in r
              ==> StrLe(Timestamp(r[i]), Timestamp(rows[j]))
  {
    var sorted := SortByTimestamp(rows);
    SortSortsAndPermutes(rows);
    assert |sorted| == |multiset(sorted)| == |multiset(rows)| == |rows|;
    var r := PyPrefix(sorted, n);
    OldestBound(sorted, r, rows);
    r
  }

  /** A prefix of a sorted permutation of rows is sorted, drawn from the rows, and no later than the rest. */
  lemma OldestBound(sorted: seq<Row>, r: seq<Row>, rows: seq<Row>)
    requires SortedByTimestamp(sorted) && multiset(sorted) == multiset(rows)
    requires |r| <= |sorted| && r == sorted[..|r|]
    ensures multiset(r) <= multiset(rows)
    ensures SortedByTimestamp(r)
    ensures forall i, j :: 0 <= i < |r| && 0 <= j < |rows| && rows[j] !in r
              ==> StrLe(Timestamp(r[i]), Timestamp(rows[j]))
  {
    assert sorted == r + sorted[|r|..];
    forall i, j | 0 <= i < |r| && 0 <= j < |rows| && rows[j] !in r
      ensures StrLe(Timestamp(r[i]), Timestamp(rows[j]))
    {
      assert rows[j] in multiset(sorted);
      var k :| 0 <= k < |sorted| && sorted[k] == rows[j];
      assert r[i] == sorted[i];
    }
  }

  /** The contents of `mentions.csv`: its header and rows. */
  datatype CsvFile = CsvFile(fieldnames: seq<string>, rows: seq<Row>)

  /** Whether `remove_mentions_from_csv` drops a row: its `tweet_id` cell exists and is listed. */
  predicate Listed(row: Row, ids: set<string>) {
    "tweet_id" in row && row["tweet_id"] in ids
  }

  /** The rows not listed, in their original order. */
  function Unlisted(rows: seq<Row>, ids: set<string>): (r: seq<Row>)
    ensures forall row :: row in r <==> row in rows && !Listed(row, ids)
    ensures |r| <= |rows|
  {
    if rows == [] then []
    else Unlisted(rows[..|rows| - 1], ids) + if Listed(rows[|rows| - 1], ids) then [] else [rows[|rows| - 1]]
  }

  /** The id `process_mentions` records for a posted row (`""` when the cell is missing). */
  function TweetId(row: Row): string {
    Cell(row, "tweet_id", "")
  }

  /** The text of the mention in a row. */
  function MentionText(row: Row): string {
    Cell(row, "text", "")
  }

  /** The Discord post made for a mention with a topic. */
  datatype Embed = Embed(title: string, description: Json, author: string)

  /** The topic of each selected row, in order. */
  function TopicsOf(rows: seq<Row>): (r: seq<Option<string>>)
    ensures |r| == |rows|
  {
    if rows == [] then [] else TopicsOf(rows[..|rows| - 1]) + [ExtractTopic(MentionText(rows[|rows| - 1]))]
  }

  lemma {:induction false} TopicsAt(rows: seq<Row>, k: nat)
    requires k < |rows|
    ensures TopicsOf(rows)[k] == ExtractTopic(MentionText(rows[k]))
  {
    if k < |rows| - 1 {
      TopicsAt(rows[..|rows| - 1], k);
    }
  }

  /** The embed posted for a row with a topic, given the ELI5 response for it. */
  function EmbedFor(topic: string, response: ApiResponse, row: Row): Embed {
    Embed(topic, GenerateExplanation(topic, response), "@" + Cell(row, "author_username", "unknown"))
  }

  /**
   * The embeds sent for the first |topics| rows, where `topics` are their
   * topics and `api(k)` is the ELI5 response for the k-th row: one per row
   * with a topic, in order.
   */
  function Embeds(rows: seq<Row>, topics: seq<Option<string>>, api: nat -> ApiResponse): seq<Embed>
    requires |topics| <= |rows|
  {
    if topics == [] then []
    else
      var k := |topics| - 1;
      Embeds(rows, topics[..k], api) + match topics[k] case None => [] case Some(t) => [EmbedFor(t, api(k), rows[k])]
  }

  /**
   * The ids collected over the first |topics| rows: those of the rows with
   * a topic whose webhook post succeeded (`posts(k)` is its status).
   */
  function PostedIds(rows: seq<Row>, topics: seq<Option<string>>, posts: nat -> Option<int>): set<string>
    requires |topics| <= |rows|
  {
    if topics == [] then {}
    else
      var k := |topics| - 1;
      PostedIds(rows, topics[..k], posts) + if topics[k].Some? && SendMessage(posts(k)) then {TweetId(rows[k])} else {}
  }

  lemma EmbedsStep(rows: seq<Row>, topics: seq<Option<string>>, i: nat, api: nat -> ApiResponse)
    requires i < |topics| <= |rows|
    ensures Embeds(rows, topics[..i + 1], api) == Embeds(rows, topics[..i], api) +
              match topics[i] case None => [] case Some(t) => [EmbedFor(t, api(i), rows[i])]
  {
    assert topics[..i + 1][..i] == topics[..i];
  }

  lemma PostedIdsStep(rows: seq<Row>, topics: seq<Option<string>>, i: nat, posts: nat -> Option<int>)
    requires i < |topics| <= |rows|
    ensures PostedIds(rows, topics[..i + 1], posts) == PostedIds(rows, topics[..i], posts) +
              if topics[i].Some? && SendMessage(posts(i)) then {TweetId(rows[i])} else {}
  {
    assert topics[..i + 1][..i] == topics[..i];
  }

  /** An id is collected exactly when some row with a topic and a successful post carries it. */
  lemma {:induction false} PostedIdsMembers(rows: seq<Row>, topics: seq<Option<string>>, posts: nat -> Option<int>, id: string)
    requires |topics| <= |rows|
    ensures id in PostedIds(rows, topics, posts) <==>
              exists k :: 0 <= k < |topics| && topics[k].Some? && SendMessage(posts(k)) && TweetId(rows[k]) == id
  {
    if topics != [] {
      var n := |topics| - 1;
      PostedIdsMembers(rows, topics[..n], posts, id);
      if id in PostedIds(rows, topics[..n], posts) {
        var k :| 0 <= k < n && topics[..n][k].Some? && SendMessage(posts(k)) && TweetId(rows[k]) == id;
        assert topics[k] == topics[..n][k];
      }
      if exists k :: 0 <= k < |topics| && topics[k].Some? && SendMessage(posts(k)) && TweetId(rows[k]) == id {
        var k :| 0 <= k < |topics| && topics[k].Some? && SendMessage(posts(k)) && TweetId(rows[k]) == id;
        if k < n {
          assert topics[..n][k] == topics[k];
        }
      }
    }
  }

  /** Each embed sent is titled with the topic of some row. */
  lemma {:induction false} EmbedsTitled(rows: seq<Row>, topics: seq<Option<string>>, api: nat -> ApiResponse, e: Embed)
    requires |topics| <= |rows| && e in Embeds(rows, topics, api)
    ensures exists k :: 0 <= k < |topics| && topics[k] == Some(e.title)
  {
    var n := |topics| - 1;
    var prev := Embeds(rows, topics[..n], api);
    if e in prev {
      EmbedsTitled(rows, topics[..n], api, e);
      var k :| 0 <= k < n && topics[..n][k] == Some(e.title);
      assert topics[k] == topics[..n][k];
    } else {
      assert topics[n] == Some(e.title);
    }
  }

  /** The number of rows with a topic. */
  function TopicCount(topics: seq<Option<string>>): nat {
    if topics == [] then 0 else TopicCount(topics[..|topics| - 1]) + if topics[|topics| - 1].Some? then 1 else 0
  }

  /** As many embeds are sent as there are rows with a topic. */
  lemma {:induction false} EmbedsCount(rows: seq<Row>, topics: seq<Option<string>>, api: nat -> ApiResponse)
    requires |topics| <= |rows|
    ensures |Embeds(rows, topics, api)| == TopicCount(topics)
  {
    if topics != [] {
      EmbedsCount(rows, topics[..|topics| - 1], api);
    }
  }

  /** The embeds `process_mentions` sends for the selected rows. */
  function SentFor(selected: seq<Row>, api: nat -> ApiResponse): seq<Embed> {
    Embeds(selected, TopicsOf(selected), api)
  }

  /** The ids `process_mentions` collects for the selected rows. */
  function ProcessedFor(selected: seq<Row>, posts: nat -> Option<int>): set<string> {
    PostedIds(selected, TopicsOf(selected), posts)
  }

  /** A row leaves the CSV only when a selected row with the same tweet id had a topic and was posted. */
  lemma RemovedOnlyIfPosted(rows: seq<Row>, selected: seq<Row>, posts: nat -> Option<int>, row: Row)
    requires row in rows && row !in Unlisted(rows, ProcessedFor(selected, posts))
    ensures "tweet_id" in row
    ensures exists i :: 0 <= i < |selected| && TweetId(selected[i]) == row["tweet_id"]
                        && ExtractTopic(MentionText(selected[i])).Some? && SendMessage(posts(i))
  {
    var topics := TopicsOf(selected);
    PostedIdsMembers(selected, topics, posts, row["tweet_id"]);
    var i :| 0 <= i < |topics| && topics[i].Some? && SendMessage(posts(i)) && TweetId(selected[i]) == row["tweet_id"];
    TopicsAt(selected, i);
  }

  /** A selected mention without a topic, whose tweet id no other selected row shares, stays in the CSV. */
  lemma TopiclessMentionStays(rows: seq<Row>, selected: seq<Row>, posts: nat -> Option<int>, j: nat)
    requires j < |selected| && selected[j] in rows
    requires ExtractTopic(MentionText(selected[j])).None?
    requires forall i :: 0 <= i < |selected| && i != j ==> TweetId(selected[i]) != TweetId(selected[j])
    ensures selected[j] in Unlisted(rows, ProcessedFor(selected, posts))
  {
    var topics := TopicsOf(selected);
    var ids := PostedIds(selected, topics, posts);
    if "tweet_id" in selected[j] {
      assert TweetId(selected[j]) == selected[j]["tweet_id"];
      PostedIdsMembers(selected, topics, posts, TweetId(selected[j]));
      TopicsAt(selected, j);
      assert TweetId(selected[j]) !in ids;
    }
    assert !Listed(selected[j], ids);
  }

  /** A row lacking the `tweet_id` cell is never removed, even after it was posted. */
  lemma RowWithoutIdStays(rows: seq<Row>, ids: set<string>, row: Row)
    requires row in rows && "tweet_id" !in row
    ensures row in Unlisted(rows, ids)
  {
  }

  /**
   * The loop of `process_mentions` over the selected rows: each row with a
   * topic gets an explanation and is posted; the ids of the rows whose post
   * succeeded are collected.
   */
  method PostSelected(selected: seq<Row>, api: nat -> ApiResponse, posts: nat -> Option<int>)
    returns (processed: set<string>, sent: seq<Embed>)
    ensures processed == ProcessedFor(selected, posts)
    ensures sent == SentFor(selected, api)
  {
    ghost var topics := TopicsOf(selected);
    processed := {};
    sent := [];
    var i := 0;
    while i < |selected|
      invariant 0 <= i <= |selected|
      invariant processed == PostedIds(selected, topics[..i], posts)
      invariant sent == Embeds(selected, topics[..i], api)
    {
      var embeds, ids := PostMention(selected, i, api(i), posts(i));
      PostedIdsStep(selected, topics, i, posts);
      EmbedsStep(selected, topics, i, api);
      sent := sent + embeds;
      processed := processed + ids;
      i := i + 1;
    }
    assert topics[..i] == topics;
  }

  /**
   * One turn of the loop of `process_mentions`, for the i-th selected row:
   * a row without a topic is skipped; otherwise its explanation is posted
   * (`response` and `status` are the ELI5 reply and the webhook status)
   * and its id is recorded when the post succeeded.
   */
  method PostMention(selected: seq<Row>, i: nat, response: ApiResponse, status: Option<int>)
    returns (embeds: seq<Embed>, ids: set<string>)
    requires i < |selected|
    ensures embeds == match TopicsOf(selected)[i] case None => [] case Some(t) => [EmbedFor(t, response, selected[i])]
    ensures ids == if TopicsOf(selected)[i].Some? && SendMessage(status) then {TweetId(selected[i])} else {}
  {
    TopicsAt(selected, i);
    var topic := ExtractTopic(MentionText(selected[i]));
    if topic.None? {
      return [], {};
    }
    embeds := [EmbedFor(topic.value, response, selected[i])];
    ids := if SendMessage(status) then {TweetId(selected[i])} else {};
  }

  class MentionsReader {
    /** `mentions.csv`; None when it cannot be read. */
    var csv: Option<CsvFile>

    constructor (csv: Option<CsvFile>)
      ensures this.csv == csv
    {
      this.csv := csv;
    }

    /** `read_mentions`: the rows of the file, none when it cannot be read. */
    function ReadMentions(): (r: seq<Row>)
      reads this
      ensures csv.None? ==> r == []
    {
      if csv.Some? then csv.value.rows else []
    }

    /** `get_oldest_mentions` on the rows the file holds now. */
    function GetOldestMentions(n: int): (r: seq<Row>)
      reads this
      ensures 0 <= n ==> |r| == if n < |ReadMentions()| then n else |ReadMentions()|
      ensures multiset(r) <= multiset(ReadMentions()) && SortedByTimestamp(r)
    {
      Oldest(ReadMentions(), n)
    }

    /**
     * `remove_mentions_from_csv`: nothing happens for an empty id set or
     * an unreadable file; otherwise the file is rewritten with its header
     * and the rows whose `tweet_id` is not listed.
     */
    method RemoveMentionsFromCsv(ids: set<string>)
      modifies this
      ensures ids == {} || old(csv).None? ==> csv == old(csv)
      ensures ids != {} && old(csv).Some? ==>
                csv == Some(CsvFile(old(csv).value.fieldnames, Unlisted(old(csv).value.rows, ids)))
    {
      if ids == {} || csv.None? {
        return;
      }
      var rows := csv.value.rows;
      var kept: seq<Row> := [];
      var i := 0;
      while i < |rows|
        invariant 0 <= i <= |rows|
        invariant kept == Unlisted(rows[..i], ids)
      {
        assert rows[..i + 1][..i] == rows[..i];
        if !Listed(rows[i], ids) {
          kept := kept + [rows[i]];
        }
        i := i + 1;
      }
      assert rows[..i] == rows;
      csv := Some(CsvFile(csv.value.fieldnames, kept));
    }

    /**
     * `process_mentions`: one pass over the 10 oldest mentions. `api(i)` and
     * `posts(i)` are the outcomes of the ELI5 request and of the webhook
     * post for the i-th selected mention. Returns whether rows remain.
     */
    method ProcessMentions(api: nat -> ApiResponse, posts: nat -> Option<int>)
      returns (more: bool, sent: seq<Embed>)
      modifies this
      ensures var selected := old(GetOldestMentions(NumMentions));
              && (selected == [] ==> !more && sent == [] && csv == old(csv))
              && (selected != [] ==>
                    && sent == SentFor(selected, api)
                    && (ProcessedFor(selected, posts) == {} ==> csv == old(csv))
                    && (ProcessedFor(selected, posts) != {} ==>
                          csv == Some(CsvFile(old(csv).value.fieldnames,
                                              Unlisted(old(csv).value.rows, ProcessedFor(selected, posts)))))
                    && more == (ReadMentions() != []))
    {
      var selected := GetOldestMentions(NumMentions);
      if selected == [] {
        return false, [];
      }
      var processed;
      processed, sent := PostSelected(selected, api, posts);
      if processed != {} {
        assert csv.Some? by {
          assert |ReadMentions()| > 0;
        }
        RemoveMentionsFromCsv(processed);
      }
      more := ReadMentions() != [];
    }
  }
}
