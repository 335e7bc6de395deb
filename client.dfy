/** The page logic of static/script.js: the local voice commands that never
    reach the server, the six-entry chat history sent with every command,
    and the client-side countdown of the active timers. The page's clock
    (Date, in milliseconds) is a parameter; the DOM is reduced to the few
    facts the logic reads and writes. */
module Client {
  import opened Text
  import Timers
  import Server

  // ------------------------------------------------------ local commands

  /** Some phrase of `words` occurs in `cmd` (a chain of includes tests). */
  predicate Mentions(cmd: string, words: seq<string>)
  {
    exists i :: 0 <= i < |words| && Contains(cmd, words[i])
  }

  lemma MentionsBy(cmd: string, words: seq<string>, i: nat)
    requires i < |words| && Contains(cmd, words[i])
    ensures Mentions(cmd, words)
  {
  }

  // ------------------------------------------------------ video commands

  datatype VideoCommand = Play | Pause | Stop | Fullscreen | ExitFullscreen | VolumeUp | VolumeDown

  /** The phrases of each family of handleVideoVoiceCommand. */
  function VideoWords(c: VideoCommand): seq<string>
  {
    match c
    case Play => ["play video", "play the video"]
    case Pause => ["pause video", "pause the video"]
    case Stop => ["stop video", "stop the video"]
    case Fullscreen =>
      ["fullscreen video", "video fullscreen", "make video fullscreen",
       "video full screen", "full screen video", "go fullscreen"]
    case ExitFullscreen =>
      ["close fullscreen", "exit fullscreen", "minimize video", "close full screen",
       "exit full screen", "band karo", "band kar", "close kar", "bandh kar"]
    case VolumeUp => ["volume up"]
    case VolumeDown => ["volume down"]
  }

  /** The position of a family in the order the handler tests them. */
  function VideoRank(c: VideoCommand): nat
  {
    match c
    case Play => 0
    case Pause => 1
    case Stop => 2
    case Fullscreen => 3
    case ExitFullscreen => 4
    case VolumeUp => 5
    case VolumeDown => 6
  }

  /** The family handleVideoVoiceCommand acts on: the first, in its order,
      one of whose phrases occurs in the lower-cased command; None when
      no phrase of any family occurs, the only case in which the handler
      returns false. */
  function ClassifyVideo(command: string): (r: Option<VideoCommand>)
    ensures r.Some? ==> Mentions(ToLower(command), VideoWords(r.value))
    ensures r.Some? ==> forall c :: VideoRank(c) < VideoRank(r.value) ==> !Mentions(ToLower(command), VideoWords(c))
    ensures r.None? <==> forall c :: !Mentions(ToLower(command), VideoWords(c))
  {
    var cmd := ToLower(command);
    if Mentions(cmd, VideoWords(Play)) then Some(Play)
    else if Mentions(cmd, VideoWords(Pause)) then Some(Pause)
    else if Mentions(cmd, VideoWords(Stop)) then Some(Stop)
    else if Mentions(cmd, VideoWords(Fullscreen)) then Some(Fullscreen)
    else if Mentions(cmd, VideoWords(ExitFullscreen)) then Some(ExitFullscreen)
    else if Mentions(cmd, VideoWords(VolumeUp)) then Some(VolumeUp)
    else if Mentions(cmd, VideoWords(VolumeDown)) then Some(VolumeDown)
    else None
  }

  /** Every command that starts with "play video" in any letter case, such
      as the "Play video N" the video cards tell the user to say, is taken
      by the local play handler, so it never reaches the server's
      play_youtube_video tool. */
  lemma PlayVideoNumberStaysLocal(command: string)
    requires "play video" <= ToLower(command)
    ensures ClassifyVideo(command) == Some(Play)
  {
    assert ToLower(command) == "play video" + ToLower(command)[10..];
    ContainsPrefix(ToLower(command), "play video", ToLower(command)[10..]);
    MentionsBy(ToLower(command), VideoWords(Play), 0);
  }

  datatype Playback = Unstarted | Playing | Paused | Stopped

  /** The YouTube player, reduced to its playback state, its volume
      (0..100) and the id of the loaded video. */
  datatype Player = Player(playback: Playback, volume: int, videoId: Option<string>)

  /** The video panel: the player (null until a video was chosen), whether
      the player's container is hidden, its caption, and whether the
      fullscreen modal is open. */
  datatype VideoPanel = VideoPanel(player: Option<Player>, hidden: bool, caption: string, fullscreen: bool)

  const NoVideoCaption := "No video selected"

  /** Math.min(100, v + 10). */
  function Louder(v: int): (r: int)
    ensures r <= 100
    ensures v <= 90 ==> r == v + 10
    ensures v >= 90 ==> r == 100
  {
    if v + 10 < 100 then v + 10 else 100
  }

  /** Math.max(0, v - 10). */
  function Quieter(v: int): (r: int)
    ensures r >= 0
    ensures v >= 10 ==> r == v - 10
    ensures v <= 10 ==> r == 0
  {
    if v - 10 > 0 then v - 10 else 0
  }

  function WithPlayback(p: VideoPanel, b: Playback): VideoPanel
  {
    match p.player
    case None => p
    case Some(pl) => p.(player := Some(pl.(playback := b)))
  }

  function WithVolume(p: VideoPanel, v: int): VideoPanel
    requires p.player.Some?
  {
    p.(player := Some(p.player.value.(volume := v)))
  }

  /** What each family does to the panel (handleVideoVoiceCommand with
      showVideoFullscreen and closeVideoModal): no command creates or
      removes the player or changes its video; play, pause and stop set the
      playback of an existing player, stop also hiding the panel; only stop
      touches the panel's visibility and caption, and only the two
      fullscreen families the modal, which opens only over a loaded video
      and closing pauses it. */
  function VideoEffect(p: VideoPanel, c: VideoCommand): (r: VideoPanel)
    ensures r.player.Some? <==> p.player.Some?
    ensures r.player.Some? ==> r.player.value.videoId == p.player.value.videoId
    ensures c == Play && p.player.Some? ==> r.player.value.playback == Playing
    ensures c == Pause && p.player.Some? ==> r.player.value.playback == Paused
    ensures c == Stop && p.player.Some? ==>
      r.player.value.playback == Stopped && r.hidden && r.caption == NoVideoCaption
    ensures c != Stop ==> r.hidden == p.hidden && r.caption == p.caption
    ensures c != Fullscreen && c != ExitFullscreen ==> r.fullscreen == p.fullscreen
    ensures c == Fullscreen ==>
      (r.fullscreen <==> p.fullscreen || (p.player.Some? && p.player.value.videoId.Some?))
    ensures c == ExitFullscreen ==> !r.fullscreen
    ensures c == ExitFullscreen && p.fullscreen && p.player.Some? ==> r.player.value.playback == Paused
  {
    match c
    case Play => WithPlayback(p, Playing)
    case Pause => WithPlayback(p, Paused)
    case Stop =>
      if p.player.Some? then WithPlayback(p, Stopped).(hidden := true, caption := NoVideoCaption) else p
    case Fullscreen =>
      if p.player.Some? && p.player.value.videoId.Some? then p.(fullscreen := true) else p
    case ExitFullscreen =>
      if p.fullscreen then WithPlayback(p, Paused).(fullscreen := false) else p
    case VolumeUp =>
      if p.player.Some? then WithVolume(p, Louder(p.player.value.volume)) else p
    case VolumeDown =>
      if p.player.Some? then WithVolume(p, Quieter(p.player.value.volume)) else p
  }

  predicate VolumeInRange(p: VideoPanel)
  {
    p.player.Some? ==> 0 <= p.player.value.volume <= 100
  }

  /** No voice command takes the volume out of 0..100. */
  lemma VolumeStaysInRange(p: VideoPanel, c: VideoCommand)
    requires VolumeInRange(p)
    ensures VolumeInRange(VideoEffect(p, c))
  {
  }

  /** Only the two volume families change the volume, each by ten at most. */
  lemma OnlyVolumeCommandsChangeVolume(p: VideoPanel, c: VideoCommand)
    requires p.player.Some?
    ensures VideoEffect(p, c).player.Some?
    ensures c != VolumeUp && c != VolumeDown ==> VideoEffect(p, c).player.value.volume == p.player.value.volume
    ensures -10 <= VideoEffect(p, c).player.value.volume - p.player.value.volume <= 10 || !VolumeInRange(p)
  {
  }

  /** Without a player only closing the fullscreen modal has an effect. */
  lemma NoPlayerNoEffect(p: VideoPanel, c: VideoCommand)
    requires p.player.None? && c != ExitFullscreen
    ensures VideoEffect(p, c) == p
  {
  }

  // ----------------------------------------------------- recipe commands

  datatype RecipeCommand = ShowRecipe | CloseRecipe

  const ShowWords: seq<string> := ["view full recipe", "show full recipe", "full recipe", "recipe details"]
  const CloseWords: seq<string> := ["close recipe", "close full recipe", "exit recipe"]

  /** handleRecipeVoiceCommand as written: the show family is tested first. */
  function ClassifyRecipeAsWritten(command: string): (r: Option<RecipeCommand>)
    ensures r == Some(ShowRecipe) <==> Mentions(ToLower(command), ShowWords)
    ensures r == Some(CloseRecipe) <==> !Mentions(ToLower(command), ShowWords) && Mentions(ToLower(command), CloseWords)
  {
    var cmd := ToLower(command);
    if Mentions(cmd, ShowWords) then Some(ShowRecipe)
    else if Mentions(cmd, CloseWords) then Some(CloseRecipe)
    else None
  }

  /** As written, every command containing "close full recipe" also
      contains "full recipe" and opens a recipe instead of closing one:
      the close phrase can never reach its own branch. */
  lemma CloseFullRecipeOpensAsWritten(command: string)
    requires Contains(ToLower(command), "close full recipe")
    ensures ClassifyRecipeAsWritten(command) == Some(ShowRecipe)
  {
    assert "close full recipe"[6..6 + |"full recipe"|] == "full recipe";
    ContainsAt("close full recipe", "full recipe", 6);
    ContainsTransitive(ToLower(command), "close full recipe", "full recipe");
    MentionsBy(ToLower(command), ShowWords, 2);
  }

  /** The evident intent: a close phrase closes the open recipe; the show
      family applies only to commands without one. */
  function ClassifyRecipe(command: string): (r: Option<RecipeCommand>)
    ensures r == Some(CloseRecipe) <==> Mentions(ToLower(command), CloseWords)
    ensures r == Some(ShowRecipe) <==> !Mentions(ToLower(command), CloseWords) && Mentions(ToLower(command), ShowWords)
  {
    var cmd := ToLower(command);
    if Mentions(cmd, CloseWords) then Some(CloseRecipe)
    else if Mentions(cmd, ShowWords) then Some(ShowRecipe)
    else None
  }

  /** The correction changes nothing for commands without a close phrase,
      and sends "close full recipe" to the close branch. */
  lemma ClassifyRecipeCorrects(command: string)
    ensures !Mentions(ToLower(command), CloseWords) ==> ClassifyRecipe(command) == ClassifyRecipeAsWritten(command)
    ensures Contains(ToLower(command), "close full recipe") ==> ClassifyRecipe(command) == Some(CloseRecipe)
  {
    if Contains(ToLower(command), "close full recipe") {
      MentionsBy(ToLower(command), CloseWords, 1);
    }
  }

  /** The recipe id of the first card whose "View Full Recipe" button
      names one; each card is None when it has no such button or its
      onclick attribute does not match showFullRecipe('...'). */
  function FirstCard(cards: seq<Option<string>>): (r: Option<string>)
    ensures r.Some? ==> exists i :: 0 <= i < |cards| && cards[i] == r && forall j :: 0 <= j < i ==> cards[j].None?
    ensures r.None? <==> forall i :: 0 <= i < |cards| ==> cards[i].None?
  {
    if cards == [] then None
    else if cards[0].Some? then cards[0]
    else
      var r := FirstCard(cards[1..]);
      assert forall i :: 1 <= i < |cards| ==> cards[i] == cards[1..][i - 1];
      r
  }

  /** The card loop of handleRecipeVoiceCommand. */
  method FirstRecipeId(cards: seq<Option<string>>) returns (r: Option<string>)
    ensures r == FirstCard(cards)
  {
    var i := 0;
    while i < |cards|
      invariant 0 <= i <= |cards|
      invariant forall j :: 0 <= j < i ==> cards[j].None?
    {
      if cards[i].Some? {
        FirstCardAt(cards, i);
        return cards[i];
      }
      i := i + 1;
    }
    return None;
  }

  lemma {:induction false} FirstCardAt(cards: seq<Option<string>>, i: nat)
    requires i < |cards| && cards[i].Some?
    requires forall j :: 0 <= j < i ==> cards[j].None?
    ensures FirstCard(cards) == cards[i]
  {
    if i > 0 {
      FirstCardAt(cards[1..], i - 1);
    }
  }

  const NoCardsText := "Please search for recipes first, then say \"view full recipe\"."
  const NoDetailsText := "I found recipes but couldn't open the details. Please try clicking \"View Full Recipe\" button."

  /** A chat bubble on the page. */
  datatype Message = Message(text: string, sender: Server.Role)

  /** What handleRecipeVoiceCommand reports (handled or not), the recipe
      modal it leaves open, and the bubbles it adds. */
  datatype RecipeReaction = RecipeReaction(handled: bool, modal: Option<string>, notices: seq<Message>)

  function ReactToRecipe(c: Option<RecipeCommand>, cards: seq<Option<string>>, modal: Option<string>): (r: RecipeReaction)
    ensures c.None? ==> !r.handled && r.modal == modal && r.notices == []
    ensures c == Some(ShowRecipe) ==> r.handled
    ensures c == Some(ShowRecipe) && FirstCard(cards).Some? ==> r.modal == FirstCard(cards) && r.notices == []
    ensures c == Some(ShowRecipe) && FirstCard(cards).None? ==>
      r.modal == modal && r.notices == [Message(if cards == [] then NoCardsText else NoDetailsText, Server.Assistant)]
    ensures c == Some(CloseRecipe) ==> r.handled == modal.Some? && r.modal.None? && r.notices == []
  {
    if c.None? then RecipeReaction(false, modal, [])
    else if c.value == CloseRecipe then RecipeReaction(modal.Some?, None, [])
    else if FirstCard(cards).Some? then RecipeReaction(true, FirstCard(cards), [])
    else RecipeReaction(true, modal, [Message(if cards == [] then NoCardsText else NoDetailsText, Server.Assistant)])
  }

  // ------------------------------------------------------- timers

  /** One entry of activeTimersData; endTime is in page-clock milliseconds. */
  datatype ClientTimer = ClientTimer(id: int, name: string, durationMinutes: int, endTime: int)

  /** The length of the run of digits that starts at i. */
  function DigitRun(s: string, i: nat): (n: nat)
    requires i <= |s|
    ensures i + n <= |s|
    ensures forall k :: i <= k < i + n ==> IsDigit(s[k])
    ensures i + n < |s| ==> !IsDigit(s[i + n])
    decreases |s| - i
  {
    if i < |s| && IsDigit(s[i]) then 1 + DigitRun(s, i + 1) else 0
  }

  /** /(\d+):(\d+)/ matches at i. A match starts on a digit; the greedy
      first group takes the whole run of digits, and no shorter run can be
      followed by ':', so the match exists exactly when the run is
      followed by ':' and a digit. */
  predicate ClockAt(s: string, i: nat)
    requires i <= |s|
  {
    i < |s| && IsDigit(s[i]) &&
    var j := i + DigitRun(s, i);
    j + 1 < |s| && s[j] == ':' && IsDigit(s[j + 1])
  }

  /** The two groups of a match at i, as parseInt reads them. */
  function ClockValues(s: string, i: nat): (nat, nat)
    requires i <= |s| && ClockAt(s, i)
  {
    var j := i + DigitRun(s, i);
    var e := j + 1 + DigitRun(s, j + 1);
    assert AllDigits(s[i..j]) && AllDigits(s[j + 1..e]);
    (DigitsValue(s[i..j]), DigitsValue(s[j + 1..e]))
  }

  /** The groups of the first match of /(\d+):(\d+)/ at or after i. */
  function FirstClock(s: string, i: nat): Option<(nat, nat)>
    requires i <= |s|
    decreases |s| - i
  {
    if i == |s| then None
    else if ClockAt(s, i) then Some(ClockValues(s, i))
    else FirstClock(s, i + 1)
  }

  /** FirstClock finds the leftmost match, and nothing when there is none. */
  lemma {:induction false} FirstClockIsLeftmost(s: string, i: nat)
    requires i <= |s|
    ensures FirstClock(s, i).None? <==> forall k :: i <= k < |s| ==> !ClockAt(s, k)
    ensures FirstClock(s, i).Some? ==>
      exists k :: i <= k < |s| && ClockAt(s, k) && FirstClock(s, i) == Some(ClockValues(s, k)) &&
        forall q :: i <= q < k ==> !ClockAt(s, q)
    decreases |s| - i
  {
    if i < |s| && !ClockAt(s, i) {
      FirstClockIsLeftmost(s, i + 1);
    }
  }

  /** The end-time offset displayActiveTimers gives a timer whose remaining
      text is `remaining`: (m * 60 + s) * 1000 ms from the first "m:s" in
      it, and nothing without one. */
  function ParseRemaining(remaining: string): (offset: nat)
    ensures offset % 1000 == 0
    ensures ':' !in remaining ==> offset == 0
  {
    NoColonNoClock(remaining, 0);
    match FirstClock(remaining, 0)
    case None => 0
    case Some((m, s)) => (m * 60 + s) * 1000
  }

  lemma {:induction false} NoColonNoClock(s: string, i: nat)
    requires i <= |s|
    ensures ':' !in s ==> FirstClock(s, i).None?
    decreases |s| - i
  {
    if i < |s| && ':' !in s {
      assert !ClockAt(s, i);
      NoColonNoClock(s, i + 1);
    }
  }

  /** The "Xm Ys" text of list_timers has no "m:s", so such a timer gets
      the display time as its end time and reads finished on the next
      tick. */
  lemma ShortFormReadsFinished(micros: int)
    requires micros > 0
    ensures ParseRemaining(Timers.ShortForm(micros)) == 0
  {
    var s := Timers.ShortForm(micros);
    var a := NatToString(Timers.RemainingMinutes(micros));
    var b := NatToString(Timers.RemainingSeconds(micros));
    assert s == a + "m " + b + "s";
    assert ':' !in a && ':' !in b;
    NoColonNoClock(s, 0);
  }

  /** A run of n digits at i that ends the string or is followed by a
      non-digit is the run DigitRun measures. */
  lemma DigitRunIs(s: string, i: nat, n: nat)
    requires i + n <= |s|
    requires forall k :: i <= k < i + n ==> IsDigit(s[k])
    requires i + n < |s| ==> !IsDigit(s[i + n])
    ensures DigitRun(s, i) == n
  {
  }

  /** The groups of a match at i are the two runs of digits around its ':'. */
  lemma ClockValuesOf(s: string, i: nat, x: string, y: string)
    requires i <= |s| && ClockAt(s, i)
    requires x == s[i..i + DigitRun(s, i)]
    requires y == s[i + DigitRun(s, i) + 1..i + DigitRun(s, i) + 1 + DigitRun(s, i + DigitRun(s, i) + 1)]
    ensures AllDigits(x) && AllDigits(y) && ClockValues(s, i) == (DigitsValue(x), DigitsValue(y))
  {
  }

  /** Two runs of digits around a ':' read back as their values. */
  lemma ClockOfDigits(a: string, b: string)
    requires a != [] && b != [] && AllDigits(a) && AllDigits(b)
    ensures FirstClock(a + ":" + b, 0) == Some((DigitsValue(a), DigitsValue(b)))
  {
    var s := a + ":" + b;
    assert forall k :: 0 <= k < |a| ==> s[k] == a[k];
    assert forall k :: |a| + 1 <= k < |s| ==> s[k] == b[k - |a| - 1];
    DigitRunIs(s, 0, |a|);
    DigitRunIs(s, |a| + 1, |b|);
    assert s[|a|] == ':';
    assert ClockAt(s, 0);
    var j := DigitRun(s, 0);
    var e := j + 1 + DigitRun(s, j + 1);
    assert j == |a| && e == |s|;
    assert s[0..j] == a;
    assert s[j + 1..e] == b;
    ClockValuesOf(s, 0, a, b);
  }

  /** The "MM:SS" text that get_timers sends reads back as its minutes and
      seconds. */
  lemma ClockParses(m: nat, sec: nat)
    ensures ParseRemaining(Clock(m, sec)) == (m * 60 + sec) * 1000
  {
    ClockOfDigits(Pad2(m), Pad2(sec));
    DigitsValueOfPad2(m);
    DigitsValueOfPad2(sec);
  }

  /** A running server-side timer, shown by get_timers, is counted down on
      the page from its remaining time cut to whole seconds. */
  lemma ServerRowMeansWholeSeconds(t: Timers.Timer, now: int)
    requires Timers.Running(t, now)
    ensures ParseRemaining(Server.RowOf(t, now).remaining) == ((t.endTime - now) / Timers.MicrosPerSecond) * 1000
  {
    var left := t.endTime - now;
    Timers.MinutesAndSeconds(left);
    var m: nat := Timers.RemainingMinutes(left);
    var sec: nat := Timers.RemainingSeconds(left);
    assert Server.RowOf(t, now).remaining == Clock(m, sec);
    ClockParses(m, sec);
    var whole := left / Timers.MicrosPerSecond;
    assert m * 60 + sec == whole;
    assert (m * 60 + sec) * 1000 == whole * 1000;
  }

  /** What a countdown element shows for remainingMs: a clock, the zero
      clock once less than a second is left. */
  function Face(remainingMs: int): (r: string)
    ensures remainingMs < 1000 ==> r == Clock(0, 0)
  {
    if remainingMs <= 0 then "00:00"
    else
      var total := remainingMs / 1000;
      Clock(total / 60, total % 60)
  }

  /** The countdown text reads back as the remaining time cut to whole
      seconds, and as nothing once the timer has run out. */
  lemma FaceRoundTrip(remainingMs: int)
    ensures ParseRemaining(Face(remainingMs)) == if remainingMs <= 0 then 0 else (remainingMs / 1000) * 1000
  {
    if remainingMs <= 0 {
      assert Face(remainingMs) == Clock(0, 0);
      ClockParses(0, 0);
    } else {
      var total := remainingMs / 1000;
      ClockParses(total / 60, total % 60);
    }
  }

  /** With time left, the element shows a clock of whole minutes and
      seconds below 60 that together make the whole seconds left. */
  lemma FaceClock(remainingMs: int)
    requires remainingMs > 0
    ensures exists m: nat, sec: nat :: Face(remainingMs) == Clock(m, sec) && sec < 60 && m * 60 + sec == remainingMs / 1000
  {
    assert Face(remainingMs) == Clock((remainingMs / 1000) / 60, (remainingMs / 1000) % 60);
  }

  /** activeTimersData after displayActiveTimers(rows): one entry per row
      id, a later row with the same id replacing an earlier one. */
  function Loaded(rows: seq<Server.TimerRow>, now: int): (r: map<int, ClientTimer>)
    ensures forall k :: k in r ==> r[k].id == k
  {
    if rows == [] then map[]
    else
      var t := rows[|rows| - 1];
      Loaded(rows[..|rows| - 1], now)[t.id := ClientTimer(t.id, t.name, t.durationMinutes, now + ParseRemaining(t.remaining))]
  }

  /** The countdown elements displayActiveTimers creates: their texts by
      timer id. For a repeated id the last row's text is kept, where
      getElementById would find the first element; the server's ids are
      distinct, so the two agree on every listing it sends. */
  function Shown(rows: seq<Server.TimerRow>): (r: map<int, string>)
  {
    if rows == [] then map[]
    else
      var t := rows[|rows| - 1];
      Shown(rows[..|rows| - 1])[t.id := t.remaining]
  }

  predicate DistinctRowIds(rows: seq<Server.TimerRow>)
  {
    forall i, j :: 0 <= i < j < |rows| ==> rows[i].id != rows[j].id
  }

  /** With distinct ids every row becomes the entry of its id, ending its
      remaining time after the display time, and shows its remaining text;
      no entry comes from anywhere else. */
  lemma {:induction false} LoadedRows(rows: seq<Server.TimerRow>, now: int, i: nat)
    requires DistinctRowIds(rows) && i < |rows|
    ensures rows[i].id in Loaded(rows, now) && rows[i].id in Shown(rows)
    ensures Loaded(rows, now)[rows[i].id] == ClientTimer(rows[i].id, rows[i].name, rows[i].durationMinutes, now + ParseRemaining(rows[i].remaining))
    ensures Shown(rows)[rows[i].id] == rows[i].remaining
  {
    if i < |rows| - 1 {
      LoadedRows(rows[..|rows| - 1], now, i);
    }
  }

  lemma {:induction false} LoadedKeys(rows: seq<Server.TimerRow>, now: int)
    ensures Loaded(rows, now).Keys == Shown(rows).Keys
    ensures forall k :: k in Loaded(rows, now) ==> exists i :: 0 <= i < |rows| && rows[i].id == k
  {
    if rows != [] {
      var init := rows[..|rows| - 1];
      LoadedKeys(init, now);
      forall k | k in Loaded(rows, now)
        ensures exists i :: 0 <= i < |rows| && rows[i].id == k
      {
        if k != rows[|rows| - 1].id {
          var i :| 0 <= i < |init| && init[i].id == k;
          assert rows[i].id == k;
        }
      }
    }
  }

  /** A timer the tick finds finished: it has a countdown element and its
      end time has passed. */
  predicate Expired(timers: map<int, ClientTimer>, countdowns: map<int, string>, now: int, k: int)
    requires k in timers
  {
    k in countdowns && timers[k].endTime - now <= 0
  }

  /** activeTimersData once the tick has visited the ids in `visited`. */
  function TickedTimers(timers: map<int, ClientTimer>, countdowns: map<int, string>, now: int, visited: set<int>): map<int, ClientTimer>
  {
    map k | k in timers && !(k in visited && Expired(timers, countdowns, now, k)) :: timers[k]
  }

  /** The countdown texts once the tick has visited `visited`: each element
      of a visited timer shows its Face; the others keep their text. */
  function TickedFaces(timers: map<int, ClientTimer>, countdowns: map<int, string>, now: int, visited: set<int>): map<int, string>
  {
    map k | k in countdowns :: if k in timers && k in visited then Face(timers[k].endTime - now) else countdowns[k]
  }

  /** hasActiveTimers once the tick has visited `visited`. */
  predicate TickedRunning(timers: map<int, ClientTimer>, countdowns: map<int, string>, now: int, visited: set<int>)
  {
    exists k :: k in visited && k in timers && k in countdowns && timers[k].endTime - now > 0
  }

  /** activeTimersData after a full tick at `now`. */
  function AfterTick(timers: map<int, ClientTimer>, countdowns: map<int, string>, now: int): map<int, ClientTimer>
  {
    TickedTimers(timers, countdowns, now, timers.Keys)
  }

  /** The countdown texts after a full tick. */
  function FacesAfterTick(timers: map<int, ClientTimer>, countdowns: map<int, string>, now: int): map<int, string>
  {
    TickedFaces(timers, countdowns, now, timers.Keys)
  }

  /** The tick saw a timer with an element and time left. */
  predicate StillRunning(timers: map<int, ClientTimer>, countdowns: map<int, string>, now: int)
  {
    TickedRunning(timers, countdowns, now, timers.Keys)
  }

  /** Visiting one more timer deletes it when it has expired, */
  lemma TickStepTimers(timers: map<int, ClientTimer>, countdowns: map<int, string>, now: int, visited: set<int>, id: int)
    requires id in timers && id !in visited
    ensures Expired(timers, countdowns, now, id) ==>
      TickedTimers(timers, countdowns, now, visited + {id}) == TickedTimers(timers, countdowns, now, visited) - {id}
    ensures !Expired(timers, countdowns, now, id) ==>
      TickedTimers(timers, countdowns, now, visited + {id}) == TickedTimers(timers, countdowns, now, visited)
  {
    var before := TickedTimers(timers, countdowns, now, visited);
    var after := TickedTimers(timers, countdowns, now, visited + {id});
    if Expired(timers, countdowns, now, id) {
      assert after.Keys == before.Keys - {id};
    } else {
      assert after.Keys == before.Keys;
    }
  }

  /** shows its Face when it has an element, */
  lemma TickStepFaces(timers: map<int, ClientTimer>, countdowns: map<int, string>, now: int, visited: set<int>, id: int)
    requires id in timers && id !in visited
    ensures id in countdowns ==>
      TickedFaces(timers, countdowns, now, visited + {id}) == TickedFaces(timers, countdowns, now, visited)[id := Face(timers[id].endTime - now)]
    ensures id !in countdowns ==>
      TickedFaces(timers, countdowns, now, visited + {id}) == TickedFaces(timers, countdowns, now, visited)
  {
    var before := TickedFaces(timers, countdowns, now, visited);
    var after := TickedFaces(timers, countdowns, now, visited + {id});
    if id in countdowns {
      assert after.Keys == before[id := Face(timers[id].endTime - now)].Keys;
    } else {
      assert after.Keys == before.Keys;
    }
  }

  /** and counts it when it is still running. */
  lemma TickStepRunning(timers: map<int, ClientTimer>, countdowns: map<int, string>, now: int, visited: set<int>, id: int)
    requires id in timers && id !in visited
    ensures TickedRunning(timers, countdowns, now, visited + {id}) <==>
      TickedRunning(timers, countdowns, now, visited) || (id in countdowns && timers[id].endTime - now > 0)
  {
  }

  /** A set that is not empty has an element to visit next. */
  lemma NonEmptyHasElement(s: set<int>)
    requires s != {}
    ensures exists x :: x in s
  {
    if forall x :: x !in s {
      assert false;
    }
  }

  lemma TickStart(timers: map<int, ClientTimer>, countdowns: map<int, string>, now: int)
    ensures TickedTimers(timers, countdowns, now, {}) == timers
    ensures TickedFaces(timers, countdowns, now, {}) == countdowns
    ensures !TickedRunning(timers, countdowns, now, {})
  {
    assert TickedTimers(timers, countdowns, now, {}).Keys == timers.Keys;
  }

  /** A second tick at the same instant deletes nothing more and keeps the
      texts; the interval is kept exactly when some displayed timer has
      time left, so it is cleared only when no displayed timer remains. */
  lemma TickSettles(timers: map<int, ClientTimer>, countdowns: map<int, string>, now: int)
    ensures AfterTick(AfterTick(timers, countdowns, now), FacesAfterTick(timers, countdowns, now), now) == AfterTick(timers, countdowns, now)
    ensures StillRunning(timers, countdowns, now) <==> exists k :: k in AfterTick(timers, countdowns, now) && k in countdowns
  {
    var after := AfterTick(timers, countdowns, now);
    var faces := FacesAfterTick(timers, countdowns, now);
    assert AfterTick(after, faces, now).Keys == after.Keys;
    if exists k :: k in after && k in countdowns {
      var k :| k in after && k in countdowns;
      assert timers[k].endTime - now > 0;
    }
  }

  // ------------------------------------------------------- manual forms

  /** The timer form's command; an empty name reads "timer". */
  function TimerFormCommand(name: string, minutes: string): (r: string)
    ensures name != [] ==> r == "Set a " + name + " timer for " + minutes + " minutes"
    ensures name == [] ==> r == "Set a timer timer for " + minutes + " minutes"
  {
    var title := if name == [] then "timer" else name;
    "Set a " + title + " timer for " + minutes + " minutes"
  }

  /** The letters l, v, k and p in either case: every video and recipe
      phrase holds one of them, and the timer form's own words none. */
  const Marks := "lvkpLVKP"

  predicate Plain(s: string)
  {
    forall i :: 0 <= i < |s| ==> s[i] !in Marks
  }

  /** The phrase holds one of the lower-case marks. */
  predicate Marked(w: string)
  {
    'l' in w || 'v' in w || 'k' in w || 'p' in w
  }

  lemma PlainLower(s: string)
    requires Plain(s)
    ensures !Marked(ToLower(s))
  {
    var t := ToLower(s);
    forall i | 0 <= i < |t|
      ensures t[i] !in "lvkp"
    {
      assert t[i] == LowerChar(s[i]) && s[i] !in Marks;
    }
  }

  /** No marked phrase occurs in text without marks. */
  lemma UnmarkedMentionsNone(cmd: string, words: seq<string>)
    requires !Marked(cmd)
    requires forall i :: 0 <= i < |words| ==> Marked(words[i])
    ensures !Mentions(cmd, words)
  {
    forall i | 0 <= i < |words| && Contains(cmd, words[i])
      ensures false
    {
      var w := words[i];
      if 'l' in w { ContainsChar(cmd, w, 'l'); }
      else if 'v' in w { ContainsChar(cmd, w, 'v'); }
      else if 'k' in w { ContainsChar(cmd, w, 'k'); }
      else { ContainsChar(cmd, w, 'p'); }
    }
  }

  lemma VideoWordsMarked(c: VideoCommand)
    ensures forall i :: 0 <= i < |VideoWords(c)| ==> Marked(VideoWords(c)[i])
  {
  }

  /** A timer form whose name and minutes hold none of the letters l, v, k
      and p in either case (a number of minutes never does) is neither a
      video command nor a recipe command, under the handlers as written and
      as corrected: processCommand sends it to the server. */
  lemma TimerFormReachesServer(name: string, minutes: string, cards: seq<Option<string>>, modal: Option<string>)
    requires Plain(name) && Plain(minutes)
    ensures ClassifyVideo(TimerFormCommand(name, minutes)).None?
    ensures ClassifyRecipeAsWritten(TimerFormCommand(name, minutes)) == None
    ensures ClassifyRecipe(TimerFormCommand(name, minutes)) == None
    ensures !ReactToRecipe(ClassifyRecipe(TimerFormCommand(name, minutes)), cards, modal).handled
  {
    var cmd := TimerFormCommand(name, minutes);
    var title := if name == [] then "timer" else name;
    assert cmd == "Set a " + title + " timer for " + minutes + " minutes";
    assert Plain(cmd);
    PlainLower(cmd);
    forall c
      ensures !Mentions(ToLower(cmd), VideoWords(c))
    {
      VideoWordsMarked(c);
      UnmarkedMentionsNone(ToLower(cmd), VideoWords(c));
    }
    UnmarkedMentionsNone(ToLower(cmd), ShowWords);
    UnmarkedMentionsNone(ToLower(cmd), CloseWords);
  }

  /** The recipe search form's command: each filter is added only when
      filled in, the diet before the cuisine. */
  function RecipeFormCommand(query: string, diet: string, cuisine: string): (r: string)
  {
    var base := "Find recipes for " + query;
    var withDiet := if diet != [] then base + " that are " + diet else base;
    if cuisine != [] then withDiet + " in " + cuisine + " style" else withDiet
  }

  /** The command starts with the query; a filled diet follows the query
      directly, a filled cuisine ends the command, so the diet comes before
      the cuisine; with both filled the command is the whole sentence. */
  lemma RecipeFormParts(query: string, diet: string, cuisine: string)
    ensures ("Find recipes for " + query) <= RecipeFormCommand(query, diet, cuisine)
    ensures diet == [] && cuisine == [] ==> RecipeFormCommand(query, diet, cuisine) == "Find recipes for " + query
    ensures diet != [] ==> Contains(RecipeFormCommand(query, diet, cuisine), " that are " + diet)
    ensures cuisine != [] ==> Contains(RecipeFormCommand(query, diet, cuisine), " in " + cuisine + " style")
    ensures diet != [] ==> ("Find recipes for " + query + " that are " + diet) <= RecipeFormCommand(query, diet, cuisine)
    ensures cuisine != [] ==>
      var r := RecipeFormCommand(query, diet, cuisine);
      var tail := " in " + cuisine + " style";
      |tail| <= |r| && r[|r| - |tail|..] == tail
    ensures diet != [] && cuisine != [] ==>
      RecipeFormCommand(query, diet, cuisine) == "Find recipes for " + query + " that are " + diet + " in " + cuisine + " style"
  {
    var r := RecipeFormCommand(query, diet, cuisine);
    var base := "Find recipes for " + query;
    var withDiet := if diet != [] then base + " that are " + diet else base;
    assert base <= withDiet;
    if diet != [] {
      ContainsInRight(base, " that are " + diet, " that are " + diet);
      assert base + (" that are " + diet) == withDiet;
      if cuisine != [] {
        ContainsInLeft(withDiet, " that are " + diet, " in " + cuisine + " style");
        assert withDiet + (" in " + cuisine + " style") == r;
      }
    }
    if cuisine != [] {
      ContainsInRight(withDiet, " in " + cuisine + " style", " in " + cuisine + " style");
      assert withDiet + (" in " + cuisine + " style") == r;
    }
  }

  // ---------------------------------------------------------- the page

  /** How many history entries the page keeps and sends. */
  const HistoryWindow := 6

  /** The user_command payload. */
  datatype Outgoing = Outgoing(command: string, history: seq<Server.Turn>, sessionId: Option<string>)

  class Page {
    /** chatHistory: the last entries, sent with each command. */
    var chatHistory: seq<Server.Turn>
    /** The chat pane's bubbles, oldest first. */
    var chat: seq<Message>
    var sessionId: Option<string>
    var video: VideoPanel
    /** The recipe cards on display and the open recipe modal's recipe. */
    var recipeCards: seq<Option<string>>
    var recipeModal: Option<string>
    /** activeTimersData, keyed by timer id. */
    var timers: map<int, ClientTimer>
    /** The countdown elements on the page: their texts by timer id. */
    var countdowns: map<int, string>
    /** timerUpdateInterval is set (the one-second tick is scheduled). */
    var ticking: bool

    ghost predicate Valid()
      reads this
    {
      (forall k :: k in timers ==> timers[k].id == k) && |chatHistory| <= HistoryWindow
    }

    constructor()
      ensures Valid()
      ensures chatHistory == [] && chat == [] && sessionId.None?
      ensures video == VideoPanel(None, false, NoVideoCaption, false)
      ensures recipeCards == [] && recipeModal.None?
      ensures timers == map[] && countdowns == map[] && !ticking
    {
      chatHistory := [];
      chat := [];
      sessionId := None;
      video := VideoPanel(None, false, NoVideoCaption, false);
      recipeCards := [];
      recipeModal := None;
      timers := map[];
      countdowns := map[];
      ticking := false;
    }

    /** updateHistory: the new entry is appended and only the last six are kept. */
    method UpdateHistory(role: Server.Role, content: string)
      requires Valid()
      modifies this`chatHistory
      ensures Valid()
      ensures chatHistory == Window(old(chatHistory) + [Server.Turn(role, content)], HistoryWindow)
      ensures chatHistory[|chatHistory| - 1] == Server.Turn(role, content)
    {
      chatHistory := chatHistory + [Server.Turn(role, content)];
      if |chatHistory| > HistoryWindow {
        chatHistory := chatHistory[|chatHistory| - HistoryWindow..];
      }
    }

    /** handleVideoVoiceCommand: true for any command of a family, whether
        or not a player exists. */
    method HandleVideoVoiceCommand(command: string) returns (handled: bool)
      modifies this`video
      ensures handled <==> ClassifyVideo(command).Some?
      ensures handled ==> video == VideoEffect(old(video), ClassifyVideo(command).value)
      ensures !handled ==> video == old(video)
    {
      var c := ClassifyVideo(command);
      if c.Some? {
        video := VideoEffect(video, c.value);
        handled := true;
      } else {
        handled := false;
      }
    }

    /** handleRecipeVoiceCommand, with the close phrases tested first. */
    method HandleRecipeVoiceCommand(command: string) returns (handled: bool)
      modifies this`recipeModal, this`chat
      ensures var r := ReactToRecipe(ClassifyRecipe(command), recipeCards, old(recipeModal));
        handled == r.handled && recipeModal == r.modal && chat == old(chat) + r.notices
    {
      var c := ClassifyRecipe(command);
      handled := false;
      if c == Some(ShowRecipe) {
        var id := FirstRecipeId(recipeCards);
        if id.Some? {
          recipeModal := id;
        } else {
          var text := if recipeCards == [] then NoCardsText else NoDetailsText;
          chat := chat + [Message(text, Server.Assistant)];
        }
        handled := true;
      } else if c == Some(CloseRecipe) {
        if recipeModal.Some? {
          recipeModal := None;
          handled := true;
        }
      }
    }

    /** processCommand: video commands first, then recipe commands, and
        only then the server, which alone records the command in the chat
        history. */
    method ProcessCommand(command: string) returns (sent: Option<Outgoing>)
      requires Valid()
      modifies this`video, this`recipeModal, this`chat, this`chatHistory
      ensures Valid()
      ensures ClassifyVideo(command).Some? ==>
        sent.None? && video == VideoEffect(old(video), ClassifyVideo(command).value) &&
        recipeModal == old(recipeModal) && chat == old(chat) && chatHistory == old(chatHistory)
      ensures ClassifyVideo(command).None? ==>
        video == old(video) && Unhandled(command, old(recipeModal), old(chat), old(chatHistory), sent)
    {
      var local := HandleVideoVoiceCommand(command);
      if local {
        return None;
      }
      sent := ProcessNonVideo(command);
    }

    /** What processCommand does with a command that is not a video command:
        a recipe command is handled locally, anything else goes to the server. */
    ghost predicate Unhandled(command: string, modal: Option<string>, chat0: seq<Message>,
                              history0: seq<Server.Turn>, sent: Option<Outgoing>)
      reads this
    {
      var r := ReactToRecipe(ClassifyRecipe(command), recipeCards, modal);
      if r.handled then
        sent.None? && recipeModal == r.modal && chat == chat0 + r.notices && chatHistory == history0
      else
        chatHistory == Window(history0 + [Server.Turn(Server.User, command)], HistoryWindow) &&
        chat == chat0 + [Message(command, Server.User), Message("", Server.Assistant)] &&
        recipeModal == modal &&
        sent == Some(Outgoing(command, chatHistory, sessionId))
    }

    method ProcessNonVideo(command: string) returns (sent: Option<Outgoing>)
      requires Valid()
      modifies this`recipeModal, this`chat, this`chatHistory
      ensures Valid()
      ensures Unhandled(command, old(recipeModal), old(chat), old(chatHistory), sent)
    {
      var local := HandleRecipeVoiceCommand(command);
      if local {
        return None;
      }
      sent := SendToServer(command);
    }

    /** The server path of processCommand: the user's message and an empty
        assistant bubble are added, the history is updated, and the command
        goes out with the history and the session id. */
    method SendToServer(command: string) returns (sent: Option<Outgoing>)
      requires Valid()
      modifies this`chat, this`chatHistory
      ensures Valid()
      ensures chatHistory == Window(old(chatHistory) + [Server.Turn(Server.User, command)], HistoryWindow)
      ensures chat == old(chat) + [Message(command, Server.User), Message("", Server.Assistant)]
      ensures sent == Some(Outgoing(command, chatHistory, sessionId))
    {
      chat := chat + [Message(command, Server.User)];
      UpdateHistory(Server.User, command);
      chat := chat + [Message("", Server.Assistant)];
      sent := Some(Outgoing(command, chatHistory, sessionId));
    }

    method StartTimerUpdates()
      modifies this`ticking
      ensures ticking
    {
      ticking := true;
    }

    method StopTimerUpdates()
      modifies this`ticking
      ensures !ticking
    {
      ticking := false;
    }

    /** displayActiveTimers: the rows replace activeTimersData and the
        countdown elements; the tick runs while there are rows. */
    method DisplayActiveTimers(rows: seq<Server.TimerRow>, now: int)
      requires Valid()
      modifies this`timers, this`countdowns, this`ticking
      ensures Valid()
      ensures timers == Loaded(rows, now) && countdowns == Shown(rows)
      ensures ticking == (rows != [])
    {
      countdowns := map[];
      timers := map[];
      if rows != [] {
        var i := 0;
        while i < |rows|
          invariant 0 <= i <= |rows|
          invariant timers == Loaded(rows[..i], now) && countdowns == Shown(rows[..i])
          invariant Valid()
        {
          var t := rows[i];
          assert rows[..i + 1][..i] == rows[..i];
          timers := timers[t.id := ClientTimer(t.id, t.name, t.durationMinutes, now + ParseRemaining(t.remaining))];
          countdowns := countdowns[t.id := t.remaining];
          i := i + 1;
        }
        assert rows[..i] == rows;
        StartTimerUpdates();
      } else {
        StopTimerUpdates();
      }
    }

    /** One timer of the tick, the body of the forEach over a snapshot of
        activeTimersData: with a countdown element it shows "00:00" and is
        deleted once its end time has passed, and otherwise shows the time
        left; without one it is skipped. The maps move from the state with
        `visited` done to the state with `id` done as well. */
    method TickTimer(id: int, now: int, ghost snapshot: map<int, ClientTimer>, ghost shown: map<int, string>,
                     ghost visited: set<int>) returns (running: bool)
      requires Valid() && id in snapshot && id !in visited
      requires timers == TickedTimers(snapshot, shown, now, visited)
      requires countdowns == TickedFaces(snapshot, shown, now, visited)
      modifies this`timers, this`countdowns
      ensures Valid()
      ensures timers == TickedTimers(snapshot, shown, now, visited + {id})
      ensures countdowns == TickedFaces(snapshot, shown, now, visited + {id})
      ensures running == (id in shown && snapshot[id].endTime - now > 0)
    {
      TickStepTimers(snapshot, shown, now, visited, id);
      TickStepFaces(snapshot, shown, now, visited, id);
      var t := timers[id];
      running := false;
      if id in countdowns {
        var remainingMs := t.endTime - now;
        if remainingMs <= 0 {
          countdowns := countdowns[id := "00:00"];
          timers := timers - {t.id};
        } else {
          running := true;
          countdowns := countdowns[id := Face(remainingMs)];
        }
      }
    }

    /** updateTimerCountdowns: one pass over the tracked timers at `now`;
        the interval is cleared when none of them is still running. */
    method UpdateTimerCountdowns(now: int)
      requires Valid()
      modifies this`timers, this`countdowns, this`ticking
      ensures Valid()
      ensures timers == AfterTick(old(timers), old(countdowns), now)
      ensures countdowns == FacesAfterTick(old(timers), old(countdowns), now)
      ensures ticking == (old(ticking) && StillRunning(old(timers), old(countdowns), now))
    {
      ghost var snapshot := timers;
      ghost var shown := countdowns;
      ghost var visited: set<int> := {};
      var pending := timers.Keys;
      var active := false;
      TickStart(snapshot, shown, now);
      while pending != {}
        invariant pending !! visited && pending + visited == snapshot.Keys
        invariant Valid()
        invariant timers == TickedTimers(snapshot, shown, now, visited)
        invariant countdowns == TickedFaces(snapshot, shown, now, visited)
        invariant active == TickedRunning(snapshot, shown, now, visited)
        invariant ticking == old(ticking)
        decreases |pending|
      {
        NonEmptyHasElement(pending);
        var id :| id in pending;
        TickStepRunning(snapshot, shown, now, visited, id);
        var running := TickTimer(id, now, snapshot, shown, visited);
        pending := pending - {id};
        visited := visited + {id};
        active := active || running;
      }
      assert visited == snapshot.Keys;
      if !active {
        StopTimerUpdates();
      }
    }
  }
}
