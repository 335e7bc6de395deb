/** The logic of app.py's Socket.IO handlers: the per-session conversation
    window and stored video results, the tool dispatch chain of
    handle_user_command, the bounds-checked video selection, the word maps,
    and handle_get_timers. The language model's reply, the parsed tool call
    and the skills' own replies are inputs. */
module Server {
  import opened Text
  import opened Timers

  // ------------------------------------------------------------- values

  /** A JSON value of the tool parameters, as far as the handler looks at
      it. Python's bool is a subclass of int, so `isinstance(True, int)`
      holds. */
  datatype Json = JInt(i: int) | JBool(b: bool) | JStr(s: string) | JNull | JOther

  predicate IsInt(j: Json)
  {
    j.JInt? || j.JBool?
  }

  function IntOf(j: Json): int
    requires IsInt(j)
  {
    if j.JInt? then j.i else if j.b then 1 else 0
  }

  /** How an f-string prints an int-like value. */
  function Shown(j: Json): string
    requires IsInt(j)
  {
    if j.JInt? then IntToString(j.i) else if j.b then "True" else "False"
  }

  datatype ToolCall = ToolCall(name: string, params: map<string, Json>)

  /** `parameters.get(key, default)`. */
  function Param(params: map<string, Json>, key: string, default: Json): Json
  {
    if key in params then params[key] else default
  }

  /** `parameters.get("query") or ""`: a missing or falsy query is "". */
  function QueryOf(params: map<string, Json>): string
  {
    if "query" in params && params["query"].JStr? then params["query"].s else ""
  }

  datatype Video = Video(videoId: string, title: string)

  // ------------------------------------------------------ extract_tool_call

  /** extract_tool_call's guard: an empty reply yields no tool call before
      any parsing. What the parsing cascade finds in a non-empty reply is
      the input `parsed`. */
  function ExtractToolCall(raw: string, parsed: Option<ToolCall>): (r: Option<ToolCall>)
    ensures raw == "" ==> r.None?
    ensures raw != "" ==> r == parsed
  {
    if raw == "" then None else parsed
  }

  // ------------------------------------------------------------ word_to_num

  /** The `word_to_num` dictionary with `.get(word, 1)`. */
  function WordToNum(word: string): (n: int)
    ensures 1 <= n <= 10
  {
    match word
    case "one" => 1
    case "two" => 2
    case "three" => 3
    case "four" => 4
    case "five" => 5
    case "six" => 6
    case "seven" => 7
    case "eight" => 8
    case "nine" => 9
    case "ten" => 10
    case _ => 1
  }

  /** The number words, "one" for 1 up to "ten" for 10. */
  function NumberWord(n: int): string
    requires 1 <= n <= 10
  {
    ["one", "two", "three", "four", "five", "six", "seven", "eight", "nine", "ten"][n - 1]
  }

  /** Each of the ten words maps to its own number. */
  lemma WordToNumOfNumberWord(n: int)
    requires 1 <= n <= 10
    ensures WordToNum(NumberWord(n)) == n
  {
  }

  /** Any other word falls back to 1. */
  lemma WordToNumDefault(word: string)
    requires forall n :: 1 <= n <= 10 ==> word != NumberWord(n)
    ensures WordToNum(word) == 1
  {
    assert word != NumberWord(1) && word != NumberWord(2) && word != NumberWord(3) && word != NumberWord(4);
    assert word != NumberWord(5) && word != NumberWord(6) && word != NumberWord(7) && word != NumberWord(8);
    assert word != NumberWord(9) && word != NumberWord(10);
  }

  // ---------------------------------------------------------- dispatch

  /** The branches of handle_user_command's if/elif chain. */
  datatype Branch =
    | YoutubeSearch | PlaySelected | TimerSet | TimerDelete | TimerListing
    | Convert | Substitute | PlayViaSkill | RecipeSearch | ByIngredients
    | RecipeDetails | OtherSkill | UnknownTool

  /** The keys of `available_skills`. */
  const SkillNames: seq<string> := [
    "get_current_time", "search_wikipedia", "get_today_date", "search_youtube",
    "set_timer", "delete_timer", "list_timers", "convert_units",
    "recipe_substitution", "play_youtube_video", "search_recipes",
    "get_recipe_details", "recipe_by_ingredients"
  ]

  /** The tool a dedicated branch tests for; the generic and unknown
      branches test no single name. */
  function BranchTool(b: Branch): Option<string>
  {
    match b
    case YoutubeSearch => Some("search_youtube")
    case PlaySelected => Some("play_youtube_video")
    case TimerSet => Some("set_timer")
    case TimerDelete => Some("delete_timer")
    case TimerListing => Some("list_timers")
    case Convert => Some("convert_units")
    case Substitute => Some("recipe_substitution")
    case PlayViaSkill => Some("play_youtube_video")
    case RecipeSearch => Some("search_recipes")
    case ByIngredients => Some("recipe_by_ingredients")
    case RecipeDetails => Some("get_recipe_details")
    case OtherSkill => None
    case UnknownTool => None
  }

  /** The chain in source order; "play_youtube_video" is tested twice.
      Every dedicated branch but the second play branch is taken exactly
      for its own tool, and only the names outside `available_skills` are
      unknown. */
  function Dispatch(name: string): (r: Branch)
    ensures forall b :: b != PlayViaSkill && BranchTool(b).Some? ==> (r == b <==> name == BranchTool(b).value)
    ensures r == UnknownTool <==> name !in SkillNames
  {
    if name == "search_youtube" then YoutubeSearch
    else if name == "play_youtube_video" then PlaySelected
    else if name == "set_timer" then TimerSet
    else if name == "delete_timer" then TimerDelete
    else if name == "list_timers" then TimerListing
    else if name == "convert_units" then Convert
    else if name == "recipe_substitution" then Substitute
    else if name == "play_youtube_video" then PlayViaSkill
    else if name == "search_recipes" then RecipeSearch
    else if name == "recipe_by_ingredients" then ByIngredients
    else if name == "get_recipe_details" then RecipeDetails
    else if name in SkillNames then OtherSkill
    else UnknownTool
  }

  /** The second play_youtube_video branch is dead code: the first one
      catches that name. */
  lemma SecondPlayBranchUnreachable(name: string)
    ensures Dispatch(name) != PlayViaSkill
    ensures name == "play_youtube_video" ==> Dispatch(name) == PlaySelected
  {
  }

  /** Only the three skills without a dedicated branch use the generic
      one, and exactly the names outside `available_skills` are unknown. */
  lemma DispatchFallbacks(name: string)
    ensures Dispatch(name) == OtherSkill
      <==> name == "get_current_time" || name == "search_wikipedia" || name == "get_today_date"
    ensures Dispatch(name) == UnknownTool <==> name !in SkillNames
  {
  }

  // ------------------------------------------------------ video selection

  datatype Selection = Selected(index: nat) | NoVideo

  /** The first play_youtube_video branch's test: an int-like number n
      with 1 <= n <= len(videos) selects videos[n - 1]. */
  function Select(num: Json, videos: seq<Video>): (r: Selection)
    ensures r.Selected? <==> IsInt(num) && 1 <= IntOf(num) <= |videos|
    ensures r.Selected? ==> r.index < |videos| && r.index == IntOf(num) - 1
  {
    if IsInt(num) && 1 <= IntOf(num) <= |videos| then Selected(IntOf(num) - 1) else NoVideo
  }

  /** With no stored results nothing can be selected. */
  lemma NothingToSelect(num: Json)
    ensures Select(num, []) == NoVideo
  {
  }

  /** A JSON `true` counts as 1 and plays the first video. */
  lemma TrueSelectsFirst(videos: seq<Video>)
    requires videos != []
    ensures Select(JBool(true), videos) == Selected(0)
  {
  }

  const NoVideoText := "Sorry, I can't find that video number. Please search for recipes first."
  const UnknownToolText := "Sorry, I'm not sure how to help with that"

  function SelectionReply(num: Json, videos: seq<Video>): string
  {
    match Select(num, videos)
    case Selected(_) => "Playing recipe video number " + Shown(num) + "."
    case NoVideo => NoVideoText
  }

  function SearchReply(query: string, found: seq<Video>): string
  {
    if found != [] then "Here are the top recipe results I found for " + query + "."
    else "Sorry, I couldn't find any recipe videos for that query."
  }

  // ---------------------------------------------------- one command's reply

  /** The spoken reply: the raw reply when no tool call is found, the
      modelled branches' texts, the fixed text for an unknown tool, and the
      input `otherReply` for the branches whose skills are modelled
      elsewhere. */
  function CommandReply(raw: string, parsed: Option<ToolCall>, stored: seq<Video>, found: seq<Video>, otherReply: string): string
  {
    match ExtractToolCall(raw, parsed)
    case None => raw
    case Some(call) =>
      match Dispatch(call.name)
      case YoutubeSearch => SearchReply(QueryOf(call.params), found)
      case PlaySelected => SelectionReply(Param(call.params, "result_number", JNull), stored)
      case UnknownTool => UnknownToolText
      case _ => otherReply
  }

  /** The video the first play branch emits, if any. */
  function PlayedVideo(raw: string, parsed: Option<ToolCall>, stored: seq<Video>): (r: Option<Video>)
  {
    match ExtractToolCall(raw, parsed)
    case None => None
    case Some(call) =>
      if Dispatch(call.name) != PlaySelected then None
      else
        match Select(Param(call.params, "result_number", JNull), stored)
        case Selected(k) => Some(stored[k])
        case NoVideo => None
  }

  /** The session's stored results after the command: replaced by a
      YouTube search, otherwise kept. */
  function StoredAfter(raw: string, parsed: Option<ToolCall>, stored: seq<Video>, found: seq<Video>): seq<Video>
  {
    match ExtractToolCall(raw, parsed)
    case None => stored
    case Some(call) => if Dispatch(call.name) == YoutubeSearch then found else stored
  }

  /** A reply without a tool call is passed through unchanged. */
  lemma ConversationalReplyPassesThrough(raw: string, parsed: Option<ToolCall>, stored: seq<Video>, found: seq<Video>, other: string)
    requires ExtractToolCall(raw, parsed).None?
    ensures CommandReply(raw, parsed, stored, found, other) == raw
    ensures PlayedVideo(raw, parsed, stored).None? && StoredAfter(raw, parsed, stored, found) == stored
  {
  }

  /** An empty model reply is never parsed: it is spoken as it is, and
      nothing is played or stored. */
  lemma EmptyReplyIsConversational(parsed: Option<ToolCall>, stored: seq<Video>, found: seq<Video>, other: string)
    ensures CommandReply("", parsed, stored, found, other) == ""
    ensures PlayedVideo("", parsed, stored).None?
  {
  }

  /** An unknown tool name gets the fixed reply. */
  lemma UnknownToolReply(raw: string, call: ToolCall, stored: seq<Video>, found: seq<Video>, other: string)
    requires raw != "" && call.name !in SkillNames
    ensures CommandReply(raw, Some(call), stored, found, other) == UnknownToolText
  {
    DispatchFallbacks(call.name);
  }

  /** A played video is always one of the session's stored results, at
      the requested 1-based position. */
  lemma PlayedVideoInRange(raw: string, parsed: Option<ToolCall>, stored: seq<Video>)
    requires PlayedVideo(raw, parsed, stored).Some?
    ensures var call := parsed.value;
      var num := Param(call.params, "result_number", JNull);
      IsInt(num) && 1 <= IntOf(num) <= |stored|
      && PlayedVideo(raw, parsed, stored).value == stored[IntOf(num) - 1]
  {
  }

  // ------------------------------------------------------ history window

  datatype Role = User | Assistant
  datatype Turn = Turn(role: Role, content: string)

  /** "Keep only last 10 exchanges". */
  const HistoryLimit: nat := 20

  /** A session history as the handler keeps it: at most 20 entries, whole
      exchanges only, a user entry then an assistant entry. */
  predicate WellPaired(h: seq<Turn>)
  {
    |h| <= HistoryLimit && |h| % 2 == 0
    && forall i :: 0 <= i < |h| ==> h[i].role == if i % 2 == 0 then User else Assistant
  }

  /** The two appends and the trim to the last 20 entries. */
  function Exchange(h: seq<Turn>, command: string, reply: string): seq<Turn>
  {
    Window(h + [Turn(User, command), Turn(Assistant, reply)], HistoryLimit)
  }

  /** The trimmed history keeps whole exchanges, ends with this command and
      its reply, and keeps the most recent earlier entries in order. */
  lemma ExchangeKeepsPairs(h: seq<Turn>, command: string, reply: string)
    requires WellPaired(h)
    ensures var r := Exchange(h, command, reply);
      && WellPaired(r)
      && r[|r| - 2] == Turn(User, command) && r[|r| - 1] == Turn(Assistant, reply)
      && r[..|r| - 2] == h[|h| + 2 - |r|..]
  {
    var s := h + [Turn(User, command), Turn(Assistant, reply)];
    var r := Window(s, HistoryLimit);
    var d := |s| - |r|;
    assert d == 0 || d == 2;
    forall i | 0 <= i < |r|
      ensures r[i].role == if i % 2 == 0 then User else Assistant
    {
      assert r[i] == s[d + i];
      if d + i < |h| { assert s[d + i] == h[d + i]; }
    }
    assert r[..|r| - 2] == s[d..|s| - 2];
  }

  function HistoryOf(history: map<string, seq<Turn>>, sid: string): seq<Turn>
  {
    if sid in history then history[sid] else []
  }

  function VideosOf(videos: map<string, seq<Video>>, sid: string): seq<Video>
  {
    if sid in videos then videos[sid] else []
  }

  // -------------------------------------------------------------- sessions

  class Sessions {
    /** conversation_history: session id to its turns. */
    var history: map<string, seq<Turn>>
    /** youtube_results: session id to the last videos found. */
    var videos: map<string, seq<Video>>

    ghost predicate Valid()
      reads this
    {
      forall sid :: sid in history ==> WellPaired(history[sid])
    }

    constructor ()
      ensures Valid() && history == map[] && videos == map[]
    {
      history := map[];
      videos := map[];
    }

    /** handle_connect: a fresh session starts empty. */
    method Connect(sid: string)
      requires Valid()
      modifies this
      ensures Valid()
      ensures history == old(history)[sid := []] && videos == old(videos)[sid := []]
    {
      history := history[sid := []];
      videos := videos[sid := []];
    }

    /** handle_user_command once the model has answered `raw`: the session
        is created if needed, the reply is worked out, then the exchange is
        recorded. `found` is what search_youtube returns and `otherReply`
        what the other tool branches say. */
    method HandleUserCommand(command: string, sid: string, raw: string, parsed: Option<ToolCall>,
                             found: seq<Video>, otherReply: string)
      returns (reply: string, play: Option<Video>)
      requires Valid()
      modifies this
      ensures Valid()
      ensures reply == CommandReply(raw, parsed, VideosOf(old(videos), sid), found, otherReply)
      ensures play == PlayedVideo(raw, parsed, VideosOf(old(videos), sid))
      ensures videos == old(videos)[sid := StoredAfter(raw, parsed, VideosOf(old(videos), sid), found)]
      ensures history == old(history)[sid := Exchange(HistoryOf(old(history), sid), command, reply)]
    {
      Open(sid);
      ghost var stored := VideosOf(old(videos), sid);
      ghost var past := HistoryOf(old(history), sid);
      reply, play := Respond(sid, raw, parsed, found, otherReply);
      ghost var after := StoredAfter(raw, parsed, stored, found);
      assert videos == old(videos)[sid := after] by {
        assert videos.Keys == old(videos)[sid := after].Keys;
      }
      Remember(sid, command, reply);
      assert history == old(history)[sid := Exchange(past, command, reply)] by {
        assert history.Keys == old(history)[sid := Exchange(past, command, reply)].Keys;
      }
    }

    /** "Initialize session if not exists". */
    method Open(sid: string)
      requires Valid()
      modifies this
      ensures Valid()
      ensures sid in history && sid in videos
      ensures history == old(history)[sid := HistoryOf(old(history), sid)]
      ensures videos == old(videos)[sid := VideosOf(old(videos), sid)]
    {
      if sid !in history {
        history := history[sid := []];
      }
      if sid !in videos {
        videos := videos[sid := []];
      }
    }

    /** The tool dispatch of handle_user_command. */
    method Respond(sid: string, raw: string, parsed: Option<ToolCall>, found: seq<Video>, otherReply: string)
      returns (reply: string, play: Option<Video>)
      requires sid in videos
      modifies this`videos
      ensures reply == CommandReply(raw, parsed, old(videos)[sid], found, otherReply)
      ensures play == PlayedVideo(raw, parsed, old(videos)[sid])
      ensures videos == old(videos)[sid := StoredAfter(raw, parsed, old(videos)[sid], found)]
    {
      play := None;
      var toolCall := ExtractToolCall(raw, parsed);
      if toolCall.Some? {
        var name := toolCall.value.name;
        var params := toolCall.value.params;
        var branch := Dispatch(name);
        if branch == YoutubeSearch {
          var query := QueryOf(params);
          videos := videos[sid := found];
          reply := if found != [] then "Here are the top recipe results I found for " + query + "."
            else "Sorry, I couldn't find any recipe videos for that query.";
        } else if branch == PlaySelected {
          var num := Param(params, "result_number", JNull);
          var stored := videos[sid];
          if IsInt(num) && 1 <= IntOf(num) <= |stored| {
            play := Some(stored[IntOf(num) - 1]);
            reply := "Playing recipe video number " + Shown(num) + ".";
          } else {
            reply := NoVideoText;
          }
        } else if branch == UnknownTool {
          reply := UnknownToolText;
        } else {
          reply := otherReply;
        }
      } else {
        reply := raw;
      }
      if videos == old(videos) {
        assert videos == old(videos)[sid := old(videos)[sid]];
      }
    }

    /** The two appends and the trim to the last 20 entries. */
    method Remember(sid: string, command: string, reply: string)
      requires Valid() && sid in history
      modifies this`history
      ensures Valid()
      ensures history == old(history)[sid := Exchange(old(history)[sid], command, reply)]
    {
      var h := history[sid] + [Turn(User, command), Turn(Assistant, reply)];
      if |h| > HistoryLimit {
        h := h[|h| - HistoryLimit..];
      }
      ExchangeKeepsPairs(history[sid], command, reply);
      history := history[sid := h];
    }
  }

  // ------------------------------------------------------ handle_get_timers

  /** One entry of the timers_list event. */
  datatype TimerRow = TimerRow(id: int, name: string, durationMinutes: int, remaining: string)

  /** A running timer's row: its id, name and duration, and the clock of
      its whole minutes and the seconds under a minute that together make
      the whole seconds left. */
  function RowOf(t: Timer, now: int): (r: TimerRow)
    requires Running(t, now)
    ensures r.id == t.id && r.name == t.name && r.durationMinutes == t.durationMinutes
    ensures var left := t.endTime - now;
      r.remaining == Clock(RemainingMinutes(left), RemainingSeconds(left))
      && RemainingSeconds(left) < 60
      && RemainingMinutes(left) * 60 + RemainingSeconds(left) == left / MicrosPerSecond
  {
    var left := t.endTime - now;
    MinutesAndSeconds(left);
    TimerRow(t.id, t.name, t.durationMinutes, Clock(RemainingMinutes(left), RemainingSeconds(left)))
  }

  /** The rows for the running timers, in table order. */
  function Rows(ts: seq<Timer>, now: int): (r: seq<TimerRow>)
    ensures |r| == |Live(ts, now)|
  {
    if ts == [] then []
    else if Running(ts[0], now) then [RowOf(ts[0], now)] + Rows(ts[1..], now)
    else Rows(ts[1..], now)
  }

  lemma {:induction false} RowsAt(ts: seq<Timer>, now: int, i: nat)
    requires i < |Rows(ts, now)|
    ensures Rows(ts, now)[i] == RowOf(Live(ts, now)[i], now)
  {
    if Running(ts[0], now) {
      if i > 0 { RowsAt(ts[1..], now, i - 1); }
    } else {
      RowsAt(ts[1..], now, i);
    }
  }

  lemma {:induction false} RowsOfPrefix(ts: seq<Timer>, i: nat, now: int)
    requires i < |ts|
    ensures Rows(ts[..i + 1], now) == Rows(ts[..i], now) + (if Running(ts[i], now) then [RowOf(ts[i], now)] else [])
  {
    if i > 0 {
      assert ts[..i + 1][1..] == ts[1..][..i];
      assert ts[..i][1..] == ts[1..][..i - 1];
      RowsOfPrefix(ts[1..], i - 1, now);
    } else {
      assert ts[..1][1..] == [];
    }
  }

  /** The loop of handle_get_timers over a snapshot of the table: each
      running timer gets a row, each expired one is deleted. */
  method RowsPass(snapshot: seq<Timer>, now: int) returns (table: seq<Timer>, rows: seq<TimerRow>)
    ensures table == Live(snapshot, now)
    ensures rows == Rows(snapshot, now)
  {
    table := snapshot;
    rows := [];
    var i := 0;
    while i < |snapshot|
      invariant 0 <= i <= |snapshot|
      invariant table == Live(snapshot[..i], now) + snapshot[i..]
      invariant rows == Rows(snapshot[..i], now)
    {
      var t := snapshot[i];
      var p := |Live(snapshot[..i], now)|;
      PurgeStep(snapshot, i, now, table);
      RowsOfPrefix(snapshot, i, now);
      if t.endTime - now > 0 {
        rows := rows + [RowOf(t, now)];
      } else {
        table := table[..p] + table[p + 1..];
      }
      i := i + 1;
    }
    assert snapshot[..i] == snapshot;
  }

  /** handle_get_timers: over a snapshot of active_timers, running timers
      are reported with "MM:SS" and expired ones are deleted. */
  method HandleGetTimers(reg: Registry, now: int) returns (rows: seq<TimerRow>)
    requires reg.Valid()
    modifies reg`timers
    ensures reg.Valid()
    ensures reg.timers == Live(old(reg.timers), now)
    ensures rows == Rows(old(reg.timers), now)
  {
    var table;
    table, rows := RowsPass(reg.timers, now);
    LiveKeepsDistinct(old(reg.timers), now);
    LiveMembers(old(reg.timers), now);
    forall j | 0 <= j < |table| ensures 0 < table[j].id <= reg.counter {
      assert table[j] in old(reg.timers);
    }
    reg.timers := table;
  }

  /** Every reported row belongs to a running timer of the table, under
      its id and name, with the "MM:SS" text of its whole minutes and
      seconds left. */
  lemma RowsReportRemaining(ts: seq<Timer>, now: int, i: nat)
    requires i < |Rows(ts, now)|
    ensures var t := Live(ts, now)[i];
      var left := t.endTime - now;
      && t in ts && Running(t, now)
      && Rows(ts, now)[i].id == t.id && Rows(ts, now)[i].name == t.name
      && Rows(ts, now)[i].remaining == Clock(RemainingMinutes(left), RemainingSeconds(left))
  {
    RowsAt(ts, now, i);
    LiveMembers(ts, now);
    assert Live(ts, now)[i] in Live(ts, now);
  }

  // ------------------------------------------------------ list_timers speech

  /** The list_timers branch's spoken summary: "No active timers" exactly
      when no timer is listed, otherwise the number of listed timers
      first. */
  function TimersSpeech(r: ListResult): (s: string)
    ensures s == "No active timers" <==> r.NoActiveTimers? || r.timers == []
    ensures r.TimerList? && r.timers != [] ==> ("You have " + NatToString(|r.timers|) + " active ") <= s
  {
    match r
    case NoActiveTimers => "No active timers"
    case TimerList(ts) =>
      if ts == [] then "No active timers"
      else
        "You have " + NatToString(|ts|) + " active " + (if |ts| != 1 then "timers" else "timer")
          + ": " + JoinComma(Names(ts))
  }

  function Names(ts: seq<Listed>): (r: seq<string>)
    ensures |r| == |ts|
    ensures forall i :: 0 <= i < |ts| ==> r[i] == ts[i].name
  {
    if ts == [] then [] else [ts[0].name] + Names(ts[1..])
  }

  /** Every listed timer's name is spoken. */
  lemma TimersSpeechNamesAll(ts: seq<Listed>, i: nat)
    requires i < |ts|
    ensures Contains(TimersSpeech(TimerList(ts)), ts[i].name)
  {
    JoinCommaContains(Names(ts), i);
    var head := "You have " + NatToString(|ts|) + " active " + (if |ts| != 1 then "timers" else "timer") + ": ";
    assert TimersSpeech(TimerList(ts)) == head + JoinComma(Names(ts));
    ContainsInRight(head, ts[i].name, JoinComma(Names(ts)));
  }
}
