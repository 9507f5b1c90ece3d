/**
 * The Discord listener of src/get_discord_mentions.py: the configuration
 * checks, the mentions CSV writer, mention detection, keyword extraction
 * and the bounded set of message ids already recorded.
 */
module DiscordMentions {
  import opened Common
  import opened Text

  const MentionsCsv: string := "mentions.csv"
  const CheckIntervalSeconds: int := 20
  const Header: seq<string> := ["timestamp", "tweet_id", "author_id", "author_username", "text"]
  /** The id set is pruned once it holds more than this many ids ... */
  const PruneAbove: nat := 1000
  /** ... down to this many. */
  const PruneTo: nat := 500
  /** The history scan looks back five minutes before the previous scan. */
  const HistoryLookback: int := 300

  // ------------------------------------------------------------ Config

  datatype Config = Config(token: string, channelId: int, serverId: int, targetUserId: int)

  /** `int(os.getenv(key, '0'))`; None when `int` raises. */
  function EnvInt(env: map<string, string>, key: string): Option<int> {
    ParseInt(if key in env then env[key] else "0")
  }

  /** A usable id: it parses and is not 0. */
  predicate NonZero(v: Option<int>) {
    v.Some? && v.value != 0
  }

  /**
   * `Config.__init__`: the three ids are converted first (a value `int`
   * rejects raises ValueError), then a missing or empty token and each id
   * equal to 0 raise ValueError.
   */
  function LoadConfig(env: map<string, string>): (r: Result<Config>)
    ensures r.Ok? <==>
              && "DISCORD_BOT_TOKEN" in env && env["DISCORD_BOT_TOKEN"] != []
              && NonZero(EnvInt(env, "DISCORD_CHANNEL_ID"))
              && NonZero(EnvInt(env, "DISCORD_SERVER_ID"))
              && NonZero(EnvInt(env, "TARGET_USER_ID"))
    ensures r.Ok? ==> r.value == Config(env["DISCORD_BOT_TOKEN"], EnvInt(env, "DISCORD_CHANNEL_ID").value,
                                        EnvInt(env, "DISCORD_SERVER_ID").value, EnvInt(env, "TARGET_USER_ID").value)
    ensures r.Err? ==> r.error == "ValueError"
  {
    var channel := EnvInt(env, "DISCORD_CHANNEL_ID");
    var server := EnvInt(env, "DISCORD_SERVER_ID");
    var target := EnvInt(env, "TARGET_USER_ID");
    if channel.None? || server.None? || target.None? then Err("ValueError")
    else if "DISCORD_BOT_TOKEN" !in env || env["DISCORD_BOT_TOKEN"] == [] then Err("ValueError")
    else if channel.value == 0 then Err("ValueError")
    else if server.value == 0 then Err("ValueError")
    else if target.value == 0 then Err("ValueError")
    else Ok(Config(env["DISCORD_BOT_TOKEN"], channel.value, server.value, target.value))
  }

  lemma ParseZero()
    ensures ParseInt("0") == Some(0)
  {
    assert Strip("0") == "0" by { StripNoSpace("0"); }
    assert DigitsValue("0") == 0;
  }

  /** An id left unset takes the default "0" and is refused, whatever else is set. */
  lemma UnsetIdRejected(env: map<string, string>, key: string)
    requires key in {"DISCORD_CHANNEL_ID", "DISCORD_SERVER_ID", "TARGET_USER_ID"} && key !in env
    ensures LoadConfig(env).Err?
  {
    ParseZero();
    assert EnvInt(env, key) == Some(0);
  }

  // ------------------------------------------------------------ MentionsWriter

  /** One CSV line, as a list of cells. */
  type Line = seq<string>

  /** The file after appending lines: appending nothing leaves it as it was, appending creates a missing file. */
  function AppendLines(file: Option<seq<Line>>, lines: seq<Line>): Option<seq<Line>> {
    if lines == [] then file else Some(file.GetOr([]) + lines)
  }

  lemma AppendLinesTwice(file: Option<seq<Line>>, a: seq<Line>, b: seq<Line>)
    ensures AppendLines(AppendLines(file, a), b) == AppendLines(file, a + b)
  {
    if a == [] {
      assert a + b == b;
    } else if b != [] {
      assert file.GetOr([]) + a + b == file.GetOr([]) + (a + b);
    } else {
      assert a + b == a;
    }
  }

  class MentionsWriter {
    /** The lines of `mentions.csv`; None while the file does not exist. */
    var file: Option<seq<Line>>

    /** `MentionsWriter.__init__`: takes the file as found and makes sure it exists. */
    constructor (existing: Option<seq<Line>>)
      ensures file == if existing.None? then Some([Header]) else existing
    {
      file := existing;
      new;
      EnsureCsvExists();
    }

    /** `ensure_csv_exists`: a missing file is created holding only the header; an existing one is left alone. */
    method EnsureCsvExists()
      modifies this
      ensures old(file).None? ==> file == Some([Header])
      ensures old(file).Some? ==> file == old(file)
    {
      if file.None? {
        file := Some([Header]);
      }
    }

    /**
     * `add_mention`: appends one line `[stamp, id, author id, author name,
     * keyword]`, where `stamp` is the current time in ISO format. Append
     * mode creates a missing file (without a header). When the file cannot
     * be opened (`writable` false) the error is logged and swallowed.
     */
    method AddMention(stamp: string, messageId: string, authorId: string, authorName: string, keyword: string, writable: bool)
      modifies this
      ensures file == AppendLines(old(file), if writable then [[stamp, messageId, authorId, authorName, keyword]] else [])
    {
      if writable {
        file := Some(file.GetOr([]) + [[stamp, messageId, authorId, authorName, keyword]]);
      }
    }
  }

  // ------------------------------------------------------------ mention detection

  /** What the model keeps of a `discord.Message`; `mentions` holds the ids of the mentioned users. */
  datatype Message = Message(id: int, channelId: int, authorId: int, authorName: string, content: string, mentions: seq<int>)

  function MentionToken(id: int): string {
    "<@" + IntToString(id) + ">"
  }

  function NickMentionToken(id: int): string {
    "<@!" + IntToString(id) + ">"
  }

  /** The bot (`botId`, None before login) or the configured target is mentioned, as a user or as a raw token in the text. */
  predicate MentionsTarget(m: Message, botId: Option<int>, targetId: int) {
    || (botId.Some? && botId.value in m.mentions)
    || targetId in m.mentions
    || Contains(m.content, MentionToken(targetId))
    || Contains(m.content, NickMentionToken(targetId))
  }

  /** `"#eli5" in content.lower()`. */
  predicate HasEli5Tag(content: string) {
    Contains(Lower(content), "#eli5")
  }

  /** `was_target_mentioned`: a mention of the bot or the target, and the `#eli5` tag. */
  predicate WasTargetMentioned(m: Message, botId: Option<int>, targetId: int) {
    MentionsTarget(m, botId, targetId) && HasEli5Tag(m.content)
  }

  /** The tag is found whatever its case: `#ELI5`, `#Eli5`, ... all qualify. */
  lemma TagAnyCase(content: string, i: int)
    requires 0 <= i && i + 5 <= |content| && SameIgnoringCase(content[i..i + 5], "#eli5")
    ensures HasEli5Tag(content)
  {
    var low := Lower(content);
    forall k | 0 <= k < 5
      ensures low[i + k] == "#eli5"[k]
    {
      LowerAt(content, i + k);
      assert content[i..i + 5][k] == content[i + k];
    }
    assert OccursAt(low, "#eli5", i);
  }

  /** A message that mentions the target and carries the tag in any case is accepted. */
  lemma MentionedAndTaggedAccepted(m: Message, botId: Option<int>, targetId: int, i: int)
    requires MentionsTarget(m, botId, targetId)
    requires 0 <= i && i + 5 <= |m.content| && SameIgnoringCase(m.content[i..i + 5], "#eli5")
    ensures WasTargetMentioned(m, botId, targetId)
  {
    TagAnyCase(m.content, i);
  }

  /** The raw token `<@id>` anywhere in the text counts as a mention of the target. */
  lemma TokenCountsAsMention(m: Message, botId: Option<int>, targetId: int, before: string, after: string)
    requires m.content == before + MentionToken(targetId) + after
    ensures MentionsTarget(m, botId, targetId)
  {
    assert OccursAt(m.content, MentionToken(targetId), |before|);
  }

  // ------------------------------------------------------------ keyword extraction

  /**
   * Matching `<@!?\s*{id}>\s*` at the start of s: `<@`, an optional `!`,
   * whitespace, the id's digits, `>`, then whitespace. The text after the
   * match when it matches.
   */
  function TokenEnd(s: string, id: string): (r: Option<string>)
    ensures r.Some? ==> |r.value| < |s|
  {
    if |s| < 2 || s[..2] != "<@" then None
    else
      var p := if |s| > 2 && s[2] == '!' then 3 else 2;
      LStripShape(s[p..]);
      var t := LStrip(s[p..]);
      if |id| + 1 <= |t| && t[..|id|] == id && t[|id|] == '>' then
        LStripShape(t[|id| + 1..]);
        Some(LStrip(t[|id| + 1..]))
      else None
  }

  /** `re.sub(rf'<@!?\s*{id}>\s*', '', s)`: one left-to-right pass removing non-overlapping matches. */
  function RemoveTokens(s: string, id: string): (r: string)
    ensures |r| <= |s|
    decreases |s|
  {
    if s == [] then []
    else
      match TokenEnd(s, id)
      case Some(rest) => RemoveTokens(rest, id)
      case None => [s[0]] + RemoveTokens(s[1..], id)
  }

  /** `extract_keyword`: the bot's tokens (once logged in), then the target's, are removed; the rest is stripped. */
  function ExtractKeyword(content: string, botId: Option<int>, targetId: int): string {
    var c := if botId.Some? then RemoveTokens(content, IntToString(botId.value)) else content;
    Strip(RemoveTokens(c, IntToString(targetId)))
  }

  /** The keyword never starts or ends with whitespace. */
  lemma ExtractKeywordTrimmed(content: string, botId: Option<int>, targetId: int)
    ensures var k := ExtractKeyword(content, botId, targetId);
            k != [] ==> !IsSpace(k[0]) && !IsSpace(k[|k| - 1])
  {
    var c := if botId.Some? then RemoveTokens(content, IntToString(botId.value)) else content;
    StripShape(RemoveTokens(c, IntToString(targetId)));
  }

  /** A text without `<@` has nothing to remove. */
  lemma {:induction false} RemoveTokensNoToken(s: string, id: string)
    requires !Contains(s, "<@")
    ensures RemoveTokens(s, id) == s
    decreases |s|
  {
    if s != [] {
      if |s| >= 2 && s[..2] == "<@" {
        assert OccursAt(s, "<@", 0);
      }
      NoTokenInTail(s, 1);
      RemoveTokensNoToken(s[1..], id);
    }
  }

  lemma NoTokenInTail(s: string, k: int)
    requires 0 <= k <= |s| && !Contains(s, "<@")
    ensures !Contains(s[k..], "<@")
  {
    if Contains(s[k..], "<@") {
      var j :| 0 <= j <= |s[k..]| - 2 && OccursAt(s[k..], "<@", j);
      assert s[k + j..k + j + 2] == s[k..][j..j + 2];
      assert OccursAt(s, "<@", k + j);
    }
  }

  /** Without any mention token the keyword is the stripped content. */
  lemma ExtractKeywordNoToken(content: string, botId: Option<int>, targetId: int)
    requires !Contains(content, "<@")
    ensures ExtractKeyword(content, botId, targetId) == Strip(content)
  {
    if botId.Some? {
      RemoveTokensNoToken(content, IntToString(botId.value));
    }
    RemoveTokensNoToken(content, IntToString(targetId));
  }

  lemma LStripIdempotent(s: string)
    ensures LStrip(LStrip(s)) == LStrip(s)
  {
    LStripShape(s);
  }

  /**
   * A message that opens with the target's token keeps everything after it,
   * the `#eli5` tag included: the keyword is the rest, stripped.
   */
  lemma ExtractKeywordLeadingMention(targetId: int, rest: string)
    requires !Contains(rest, "<@")
    ensures ExtractKeyword(MentionToken(targetId) + rest, None, targetId) == Strip(rest)
  {
    var d := IntToString(targetId);
    var s := MentionToken(targetId) + rest;
    IntToStringStart(targetId);
    assert s[..2] == "<@";
    assert s[2..] == d + ">" + rest;
    assert !IsSpace(s[2..][0]);
    assert LStrip(s[2..]) == s[2..];
    var t := s[2..];
    assert t[..|d|] == d && t[|d|] == '>';
    assert t[|d| + 1..] == rest;
    assert TokenEnd(s, d) == Some(LStrip(rest));
    LStripShape(rest);
    NoTokenInTail(rest, |rest| - |LStrip(rest)|);
    RemoveTokensNoToken(LStrip(rest), d);
    LStripIdempotent(rest);
  }

  // ------------------------------------------------------------ DiscordListener

  /** The line `add_mention` writes for a message whose id reads `id`, stamped `stamp`. */
  function LineFor(m: Message, id: string, botId: Option<int>, targetId: int, stamp: string): Line {
    [stamp, id, IntToString(m.authorId), m.authorName, ExtractKeyword(m.content, botId, targetId)]
  }

  /** The id under which a message is recorded, when it qualifies. */
  function KeyOf(m: Message, botId: Option<int>, targetId: int): Option<string> {
    if WasTargetMentioned(m, botId, targetId) then Some(IntToString(m.id)) else None
  }

  /** The key of each message, in order. */
  function KeysOf(msgs: seq<Message>, botId: Option<int>, targetId: int): (r: seq<Option<string>>)
    ensures |r| == |msgs|
  {
    if msgs == [] then [] else KeysOf(msgs[..|msgs| - 1], botId, targetId) + [KeyOf(msgs[|msgs| - 1], botId, targetId)]
  }

  lemma {:induction false} KeysAt(msgs: seq<Message>, botId: Option<int>, targetId: int, k: nat)
    requires k < |msgs|
    ensures KeysOf(msgs, botId, targetId)[k] == KeyOf(msgs[k], botId, targetId)
  {
    if k < |msgs| - 1 {
      KeysAt(msgs[..|msgs| - 1], botId, targetId, k);
    }
  }

  /** A key gets recorded: it is present and not among the recorded ids. */
  predicate Fresh(key: Option<string>, processed: set<string>) {
    key.Some? && key.value !in processed
  }

  /** The recorded ids after one message with the given key. */
  function Recorded(processed: set<string>, key: Option<string>): set<string> {
    if Fresh(key, processed) then processed + {key.value} else processed
  }

  /** The line written for one message: only when its key is fresh and the file can be opened. */
  function NewLine(processed: set<string>, key: Option<string>, m: Message, botId: Option<int>, targetId: int,
                   stamp: string, writable: bool): seq<Line>
  {
    if Fresh(key, processed) && writable then [LineFor(m, key.value, botId, targetId, stamp)] else []
  }

  /** The recorded ids after a run of messages with the given keys, in order. */
  function ScanIds(processed: set<string>, keys: seq<Option<string>>): set<string> {
    if keys == [] then processed
    else Recorded(ScanIds(processed, keys[..|keys| - 1]), keys[|keys| - 1])
  }

  /** The lines written over a run of messages; `stamps(k)` and `writable(k)` are the clock and the file's state at the k-th. */
  function ScanLines(processed: set<string>, msgs: seq<Message>, keys: seq<Option<string>>, botId: Option<int>, targetId: int,
                     stamps: nat -> string, writable: nat -> bool): seq<Line>
    requires |keys| <= |msgs|
  {
    if keys == [] then []
    else
      var k := |keys| - 1;
      ScanLines(processed, msgs, keys[..k], botId, targetId, stamps, writable) +
      NewLine(ScanIds(processed, keys[..k]), keys[k], msgs[k], botId, targetId, stamps(k), writable(k))
  }

  /** After a run, an id is recorded exactly when it was before or some message's key is that id. */
  lemma {:induction false} ScanIdsMembers(processed: set<string>, keys: seq<Option<string>>, id: string)
    ensures id in ScanIds(processed, keys) <==> id in processed || exists k :: 0 <= k < |keys| && keys[k] == Some(id)
  {
    if keys != [] {
      var n := |keys| - 1;
      ScanIdsMembers(processed, keys[..n], id);
      if exists k :: 0 <= k < n && keys[..n][k] == Some(id) {
        var k :| 0 <= k < n && keys[..n][k] == Some(id);
        assert keys[k] == keys[..n][k];
      }
      if exists k :: 0 <= k < |keys| && keys[k] == Some(id) {
        var k :| 0 <= k < |keys| && keys[k] == Some(id);
        if k < n {
          assert keys[..n][k] == keys[k];
        }
      }
    }
  }

  /** After a scan, every qualifying message's id is recorded ... */
  lemma QualifyingRecorded(processed: set<string>, msgs: seq<Message>, botId: Option<int>, targetId: int, k: nat)
    requires k < |msgs| && WasTargetMentioned(msgs[k], botId, targetId)
    ensures IntToString(msgs[k].id) in ScanIds(processed, KeysOf(msgs, botId, targetId))
  {
    KeysAt(msgs, botId, targetId, k);
    ScanIdsMembers(processed, KeysOf(msgs, botId, targetId), IntToString(msgs[k].id));
  }

  /** ... and every id it adds belongs to a qualifying message. */
  lemma RecordedQualifies(processed: set<string>, msgs: seq<Message>, botId: Option<int>, targetId: int, id: string)
    requires id in ScanIds(processed, KeysOf(msgs, botId, targetId)) && id !in processed
    ensures exists k :: 0 <= k < |msgs| && WasTargetMentioned(msgs[k], botId, targetId) && IntToString(msgs[k].id) == id
  {
    var keys := KeysOf(msgs, botId, targetId);
    ScanIdsMembers(processed, keys, id);
    var k :| 0 <= k < |keys| && keys[k] == Some(id);
    KeysAt(msgs, botId, targetId, k);
  }

  lemma {:induction false} ScanIdsGrow(processed: set<string>, keys: seq<Option<string>>)
    ensures processed <= ScanIds(processed, keys)
  {
    if keys != [] {
      ScanIdsGrow(processed, keys[..|keys| - 1]);
    }
  }

  /** Every line has the five cells of `add_mention`. */
  predicate FiveCells(lines: seq<Line>) {
    forall a :: 0 <= a < |lines| ==> |lines[a]| == 5
  }

  /** Each line's id is outside `before` and inside `after`, and no two lines share an id. */
  predicate NewIds(lines: seq<Line>, before: set<string>, after: set<string>)
    requires FiveCells(lines)
  {
    && (forall a :: 0 <= a < |lines| ==> lines[a][1] !in before && lines[a][1] in after)
    && (forall a, b :: 0 <= a < b < |lines| ==> lines[a][1] != lines[b][1])
  }

  /**
   * No message id is written twice, nor one that was already recorded:
   * each written line carries a new id, which is recorded afterwards.
   */
  lemma {:induction false} ScanLinesFresh(processed: set<string>, msgs: seq<Message>, keys: seq<Option<string>>,
                                          botId: Option<int>, targetId: int, stamps: nat -> string, writable: nat -> bool)
    requires |keys| <= |msgs|
    ensures FiveCells(ScanLines(processed, msgs, keys, botId, targetId, stamps, writable))
    ensures NewIds(ScanLines(processed, msgs, keys, botId, targetId, stamps, writable), processed, ScanIds(processed, keys))
  {
    if keys != [] {
      var k := |keys| - 1;
      var before := ScanIds(processed, keys[..k]);
      var after := ScanIds(processed, keys);
      var prev := ScanLines(processed, msgs, keys[..k], botId, targetId, stamps, writable);
      var added := NewLine(before, keys[k], msgs[k], botId, targetId, stamps(k), writable(k));
      var lines := prev + added;
      assert lines == ScanLines(processed, msgs, keys, botId, targetId, stamps, writable);
      ScanLinesFresh(processed, msgs, keys[..k], botId, targetId, stamps, writable);
      ScanIdsGrow(processed, keys[..k]);
      assert before <= after;
      if added != [] {
        var id := keys[k].value;
        assert added == [LineFor(msgs[k], id, botId, targetId, stamps(k))];
        assert |added[0]| == 5 && added[0][1] == id;
        assert id !in before && id in after;
        forall a | 0 <= a < |lines|
          ensures |lines[a]| == 5 && lines[a][1] !in processed && lines[a][1] in after
        {
          if a < |prev| {
            assert lines[a] == prev[a];
          } else {
            assert lines[a] == added[0];
          }
        }
        forall a, b | 0 <= a < b < |lines|
          ensures lines[a][1] != lines[b][1]
        {
          assert lines[a] == prev[a];
          if b < |prev| {
            assert lines[b] == prev[b];
          } else {
            assert lines[b] == added[0];
          }
        }
      } else {
        assert lines == prev;
      }
    }
  }

  lemma ScanStep(processed: set<string>, msgs: seq<Message>, keys: seq<Option<string>>, i: nat, botId: Option<int>, targetId: int,
                 stamps: nat -> string, writable: nat -> bool)
    requires i < |keys| <= |msgs|
    ensures ScanIds(processed, keys[..i + 1]) == Recorded(ScanIds(processed, keys[..i]), keys[i])
    ensures ScanLines(processed, msgs, keys[..i + 1], botId, targetId, stamps, writable) ==
              ScanLines(processed, msgs, keys[..i], botId, targetId, stamps, writable) +
              NewLine(ScanIds(processed, keys[..i]), keys[i], msgs[i], botId, targetId, stamps(i), writable(i))
  {
    assert keys[..i + 1][..i] == keys[..i];
  }

  /** `set(list(s)[-n:])` for n <= |s|: some n of the elements (which ones depends on the set's iteration order). */
  method KeepSome(s: set<string>, n: nat) returns (r: set<string>)
    requires n <= |s|
    ensures r <= s && |r| == n
  {
    r := {};
    var rest := s;
    while |r| < n
      invariant r <= s && rest == s - r && |rest| == |s| - |r| && |r| <= n
      decreases n - |r|
    {
      var x :| x in rest;
      r := r + {x};
      rest := rest - {x};
    }
  }

  class DiscordListener {
    const config: Config
    const writer: MentionsWriter
    /** `processed_messages`: the ids (as strings) already written. */
    var processedMessages: set<string>
    /** `last_check_time`, in seconds. */
    var lastCheckTime: int

    /** `DiscordListener.__init__`, at time `now`. */
    constructor (config: Config, writer: MentionsWriter, now: int)
      ensures this.config == config && this.writer == writer
      ensures processedMessages == {} && lastCheckTime == now
    {
      this.config := config;
      this.writer := writer;
      processedMessages := {};
      lastCheckTime := now;
    }

    /**
     * The block `on_message` and the history scan share: a qualifying
     * message whose id is new is written and its id recorded. `botId` is
     * the logged-in user's id, `stamp` the time of writing.
     */
    method Record(m: Message, botId: Option<int>, stamp: string, writable: bool)
      modifies this, writer
      ensures processedMessages == Recorded(old(processedMessages), KeyOf(m, botId, config.targetUserId))
      ensures writer.file == AppendLines(old(writer.file),
                NewLine(old(processedMessages), KeyOf(m, botId, config.targetUserId), m, botId, config.targetUserId, stamp, writable))
      ensures lastCheckTime == old(lastCheckTime)
    {
      if WasTargetMentioned(m, botId, config.targetUserId) {
        var id := IntToString(m.id);
        if id !in processedMessages {
          var keyword := ExtractKeyword(m.content, botId, config.targetUserId);
          writer.AddMention(stamp, id, IntToString(m.authorId), m.authorName, keyword, writable);
          processedMessages := processedMessages + {id};
        }
      }
    }

    /** `Record` for the i-th message of a history batch, stated through the batch's keys. */
    method RecordAt(msgs: seq<Message>, i: nat, botId: Option<int>, stamp: string, writable: bool)
      requires i < |msgs|
      modifies this, writer
      ensures processedMessages == Recorded(old(processedMessages), KeysOf(msgs, botId, config.targetUserId)[i])
      ensures writer.file == AppendLines(old(writer.file),
                NewLine(old(processedMessages), KeysOf(msgs, botId, config.targetUserId)[i], msgs[i], botId, config.targetUserId, stamp, writable))
      ensures lastCheckTime == old(lastCheckTime)
    {
      KeysAt(msgs, botId, config.targetUserId, i);
      Record(msgs[i], botId, stamp, writable);
    }

    /** One turn of the history loop: the state after message i extends the state after the first i. */
    method ScanNext(msgs: seq<Message>, i: nat, botId: Option<int>, stamps: nat -> string, writable: nat -> bool,
                    ghost ids0: set<string>, ghost file0: Option<seq<Line>>)
      requires i < |msgs|
      requires processedMessages == ScanIds(ids0, KeysOf(msgs, botId, config.targetUserId)[..i])
      requires writer.file == AppendLines(file0,
                 ScanLines(ids0, msgs, KeysOf(msgs, botId, config.targetUserId)[..i], botId, config.targetUserId, stamps, writable))
      modifies this, writer
      ensures processedMessages == ScanIds(ids0, KeysOf(msgs, botId, config.targetUserId)[..i + 1])
      ensures writer.file == AppendLines(file0,
                ScanLines(ids0, msgs, KeysOf(msgs, botId, config.targetUserId)[..i + 1], botId, config.targetUserId, stamps, writable))
      ensures lastCheckTime == old(lastCheckTime)
    {
      ghost var keys := KeysOf(msgs, botId, config.targetUserId);
      ghost var target := config.targetUserId;
      ghost var lines := ScanLines(ids0, msgs, keys[..i], botId, target, stamps, writable);
      ScanStep(ids0, msgs, keys, i, botId, target, stamps, writable);
      RecordAt(msgs, i, botId, stamps(i), writable(i));
      AppendLinesTwice(file0, lines, NewLine(ScanIds(ids0, keys[..i]), keys[i], msgs[i], botId, target, stamps(i), writable(i)));
    }

    /** The loop of `check_for_mentions` over the history batch, recording like `on_message`. */
    method ScanHistory(msgs: seq<Message>, botId: Option<int>, stamps: nat -> string, writable: nat -> bool)
      modifies this, writer
      ensures processedMessages == ScanIds(old(processedMessages), KeysOf(msgs, botId, config.targetUserId))
      ensures writer.file == AppendLines(old(writer.file),
                ScanLines(old(processedMessages), msgs, KeysOf(msgs, botId, config.targetUserId), botId, config.targetUserId, stamps, writable))
      ensures lastCheckTime == old(lastCheckTime)
    {
      ghost var keys := KeysOf(msgs, botId, config.targetUserId);
      ghost var ids0 := processedMessages;
      ghost var file0 := writer.file;
      assert keys[..0] == [];
      var i := 0;
      while i < |msgs|
        invariant 0 <= i <= |msgs|
        invariant processedMessages == ScanIds(ids0, keys[..i])
        invariant writer.file == AppendLines(file0, ScanLines(ids0, msgs, keys[..i], botId, config.targetUserId, stamps, writable))
        invariant lastCheckTime == old(lastCheckTime)
      {
        ScanNext(msgs, i, botId, stamps, writable, ids0, file0);
        i := i + 1;
      }
      assert keys[..i] == keys;
    }

    /** `on_message`: messages from other channels are ignored. */
    method OnMessage(m: Message, botId: Option<int>, stamp: string, writable: bool)
      modifies this, writer
      ensures m.channelId != config.channelId ==>
                processedMessages == old(processedMessages) && writer.file == old(writer.file)
      ensures m.channelId == config.channelId ==>
                && processedMessages == Recorded(old(processedMessages), KeyOf(m, botId, config.targetUserId))
                && writer.file == AppendLines(old(writer.file),
                     NewLine(old(processedMessages), KeyOf(m, botId, config.targetUserId), m, botId, config.targetUserId, stamp, writable))
      ensures lastCheckTime == old(lastCheckTime)
    {
      if m.channelId != config.channelId {
        return;
      }
      Record(m, botId, stamp, writable);
    }

    /**
     * `check_for_mentions` at time `now`. `found` says whether the server
     * and the channel were found; `history` is what the channel history
     * returned for messages after `after` (None when reading it raised).
     * The scan records like `on_message`; then a set of more than 1000 ids
     * is cut down to 500 of them.
     */
    method CheckForMentions(found: bool, history: Option<seq<Message>>, botId: Option<int>, now: int,
                            stamps: nat -> string, writable: nat -> bool)
      returns (after: Option<int>)
      modifies this, writer
      ensures !found ==> after == None
      ensures found ==> after == Some(old(lastCheckTime) - HistoryLookback)
      ensures !found || history.None? ==>
                processedMessages == old(processedMessages) && writer.file == old(writer.file) && lastCheckTime == old(lastCheckTime)
      ensures found && history.Some? ==>
                var keys := KeysOf(history.value, botId, config.targetUserId);
                var ids := ScanIds(old(processedMessages), keys);
                && lastCheckTime == now
                && writer.file == AppendLines(old(writer.file),
                     ScanLines(old(processedMessages), history.value, keys, botId, config.targetUserId, stamps, writable))
                && (|ids| <= PruneAbove ==> processedMessages == ids)
                && (|ids| > PruneAbove ==> processedMessages <= ids && |processedMessages| == PruneTo)
    {
      if !found {
        return None;
      }
      after := Some(lastCheckTime - HistoryLookback);
      if history.None? {
        return;
      }
      lastCheckTime := now;
      ScanHistory(history.value, botId, stamps, writable);
      if |processedMessages| > PruneAbove {
        processedMessages := KeepSome(processedMessages, PruneTo);
      }
    }
  }
}
