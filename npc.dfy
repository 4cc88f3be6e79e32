/** The side-view NPC of npc.py: a conversation state machine that counts
    visits, picks a line set for each visit, walks through the lines with
    Space, and lets the player answer a branching line with the keys 1-9. */
module Npcs {
  import opened Common
  import opened Pygame

  /** A dialog entry: a plain line, or a line that offers choices. */
  datatype Entry = Plain(text: string) | Branching(text: string, choices: seq<Choice>)

  /** One answer offered by a branching line. */
  datatype Choice = Choice(caption: string, next: Next)

  /** Where a choice leads: a new list of lines, a single line, or nowhere.
      An empty list and an empty string lead nowhere, like a missing key. */
  datatype Next = NextLines(lines: seq<Entry>) | NextText(line: string) | NextNone

  const Ellipsis: Entry := Plain("...")

  /** The range, in pixels between rectangle centres, within which Space
      reaches an NPC. */
  const TalkRange: int := 90

  /** `DIALOGUE_DB`: the `lines_by_visit` of each known NPC. */
  const DialogueDb: map<string, seq<seq<Entry>>> := map[
    "워니" := [
      [ Plain("안녕 오늘도 하루가 시작됐네"),
        Plain("진짜 오늘도 일가고 내일도 일가고"),
        Branching("주 100시간제가 도입된대…", [
          Choice("헉… 괜찮아?", NextLines([Plain("괜찮진 않은데 버텨야지…")])),
          Choice("그만둬!", NextLines([Plain("그건… 현실적으로 쉽지 않다…")]))
        ])
      ],
      [Plain("왜 뭐 할말 있어??")],
      [Plain("음 이제 말 그만 걸어줄레??")],
      [Plain("나 이제 일 가야해")]
    ],
    "상미니" := [
      [Plain("원희야"), Plain("그림"), Plain("화이팅이다")],
      [ Branching("퀄리티 기대 할께!", [
          Choice("고마워!", NextLines([Plain("기대는 좋은 힘이지 ㅎㅎ")])),
          Choice("부담돼…", NextLines([Plain("부담 느끼지 말고 너 페이스로!")]))
        ])
      ],
      [Plain("음 이제 말 그만 걸어줄레??")],
      [Plain("아 좀 가라고;;")]
    ]
  ]

  /** The line sets an NPC is built with: its database entry, or a single
      "..." set for an unknown id. */
  function LinesFor(db: map<string, seq<seq<Entry>>>, npcId: string): seq<seq<Entry>>
  {
    if npcId in db then db[npcId] else [[Ellipsis]]
  }

  // -----------------------------------------------------------------------
  // Line-set selection
  // -----------------------------------------------------------------------

  /** `_select_lines_for_visit`. `pick` is the outcome of `random.choice`
      between the third and the fourth set (false: the third). */
  function SelectLines(linesByVisit: seq<seq<Entry>>, visit: int, pick: bool): seq<Entry>
  {
    var sets := if linesByVisit == [] then [[Ellipsis]] else linesByVisit;
    if visit >= 5 && |sets| >= 4 then (if pick then sets[3] else sets[2])
    else sets[Min(Max(visit - 1, 0), |sets| - 1)]
  }

  /** From the fifth visit on, an NPC with four or more sets says its third
      or its fourth set, never a later one, and either can come up. */
  lemma SelectSteadyState(linesByVisit: seq<seq<Entry>>, visit: int, pick: bool)
    requires visit >= 5 && |linesByVisit| >= 4
    ensures SelectLines(linesByVisit, visit, pick) in {linesByVisit[2], linesByVisit[3]}
    ensures SelectLines(linesByVisit, visit, false) == linesByVisit[2]
    ensures SelectLines(linesByVisit, visit, true) == linesByVisit[3]
  {
  }

  /** Otherwise the visit number, clamped into the list, picks the set:
      visits 1..n pick the sets in order, later visits repeat the last
      set, visits up to 0 pick the first, and the random pick is unused. */
  lemma SelectByVisit(linesByVisit: seq<seq<Entry>>, visit: int, pick: bool)
    requires linesByVisit != []
    requires !(visit >= 5 && |linesByVisit| >= 4)
    ensures 1 <= visit <= |linesByVisit| ==> SelectLines(linesByVisit, visit, pick) == linesByVisit[visit - 1]
    ensures visit > |linesByVisit| ==> SelectLines(linesByVisit, visit, pick) == linesByVisit[|linesByVisit| - 1]
    ensures visit <= 0 ==> SelectLines(linesByVisit, visit, pick) == linesByVisit[0]
    ensures SelectLines(linesByVisit, visit, pick) == SelectLines(linesByVisit, visit, !pick)
  {
  }

  /** An NPC without line sets behaves as one whose only set is "...". */
  lemma SelectFromNothing(visit: int, pick: bool)
    ensures SelectLines([], visit, pick) == [Ellipsis]
  {
  }

  // -----------------------------------------------------------------------
  // Conversation state
  // -----------------------------------------------------------------------

  /** The fields `visit_count`, `active_lines`, `_idx` and `talk_active`. */
  datatype Session = Session(visitCount: nat, activeLines: seq<Entry>, idx: nat, talkActive: bool)

  const Initial: Session := Session(0, [], 0, false)

  /** While a conversation is open its cursor is on one of its lines. */
  predicate Inv(s: Session)
  {
    s.talkActive ==> s.idx < |s.activeLines|
  }

  /** `_start_conversation`. */
  function Start(s: Session, linesByVisit: seq<seq<Entry>>, pick: bool): Session
  {
    var chosen := SelectLines(linesByVisit, s.visitCount + 1, pick);
    Session(s.visitCount + 1, if chosen == [] then [Ellipsis] else chosen, 0, true)
  }

  /** `_current_node`: never out of range, "..." when there are no lines. */
  function CurrentNode(s: Session): (e: Entry)
    ensures s.activeLines == [] ==> e == Ellipsis
    ensures s.activeLines != [] ==> e in s.activeLines
    ensures s.idx < |s.activeLines| ==> e == s.activeLines[s.idx]
  {
    if s.activeLines == [] then Ellipsis else s.activeLines[Min(s.idx, |s.activeLines| - 1)]
  }

  /** `isinstance(node, dict) and node.get("choices")`. */
  predicate HasChoices(e: Entry)
  {
    e.Branching? && e.choices != []
  }

  /** `_apply_choice`. */
  function ApplyChoice(s: Session, c: Choice): Session
  {
    match c.next
    case NextLines(ls) =>
      if ls != [] then s.(activeLines := ls, idx := 0, talkActive := true) else s.(talkActive := false)
    case NextText(t) =>
      if t != "" then s.(activeLines := [Plain(t)], idx := 0, talkActive := true) else s.(talkActive := false)
    case NextNone =>
      s.(talkActive := false)
  }

  /** Space on an open conversation whose line offers no choices. */
  function Advance(s: Session): Session
  {
    if s.idx + 1 >= |s.activeLines| then s.(idx := s.idx + 1, talkActive := false)
    else s.(idx := s.idx + 1)
  }

  /** Space pressed while near. */
  predicate IsTalkKey(e: Event, near: bool)
  {
    e.KeyDown? && e.key == K_SPACE && near
  }

  /** One event of `update`'s loop. `node` is the line captured before the
      loop; `pick` is the random outcome should the event start a talk. */
  function OnEvent(s: Session, linesByVisit: seq<seq<Entry>>, node: Entry, near: bool, rects: seq<(Rect, Choice)>, e: Event, pick: bool): Session
  {
    if IsTalkKey(e, near) && s.talkActive && HasChoices(node) then s
    else
      var s1 := if !IsTalkKey(e, near) then s
                else if !s.talkActive then Start(s, linesByVisit, pick)
                else Advance(s);
      if e.KeyDown? && s1.talkActive && HasChoices(node) && K_1 <= e.key <= K_9
         && e.key - K_1 < |node.choices|
      then ApplyChoice(s1, node.choices[e.key - K_1])
      else if e.MouseDown? && e.button == 1 && s1.talkActive && HasChoices(node) then
        match FirstHit(rects, e.px, e.py)
        case Some(c) => ApplyChoice(s1, c)
        case None => s1
      else s1
  }

  /** The choice of the first button rectangle containing the point. */
  function FirstHit(rects: seq<(Rect, Choice)>, px: int, py: int): (r: Option<Choice>)
    ensures r.None? <==> forall i :: 0 <= i < |rects| ==> !rects[i].0.CollidePoint(px, py)
    ensures r.Some? ==> exists i :: 0 <= i < |rects| && rects[i].0.CollidePoint(px, py) && rects[i].1 == r.value
                          && forall j :: 0 <= j < i ==> !rects[j].0.CollidePoint(px, py)
  {
    if rects == [] then None
    else if rects[0].0.CollidePoint(px, py) then Some(rects[0].1)
    else
      var r := FirstHit(rects[1..], px, py);
      assert forall i :: 1 <= i < |rects| ==> rects[i] == rects[1..][i - 1];
      if r.Some? then FirstHitShift(rects, px, py, r.value); r else r
  }

  lemma FirstHitShift(rects: seq<(Rect, Choice)>, px: int, py: int, c: Choice)
    requires rects != [] && !rects[0].0.CollidePoint(px, py)
    requires exists k :: 0 <= k < |rects[1..]| && rects[1..][k].0.CollidePoint(px, py) && rects[1..][k].1 == c
                         && forall j :: 0 <= j < k ==> !rects[1..][j].0.CollidePoint(px, py)
    ensures exists i :: 0 <= i < |rects| && rects[i].0.CollidePoint(px, py) && rects[i].1 == c
                        && forall j :: 0 <= j < i ==> !rects[j].0.CollidePoint(px, py)
  {
    var k :| 0 <= k < |rects[1..]| && rects[1..][k].0.CollidePoint(px, py) && rects[1..][k].1 == c
             && forall j :: 0 <= j < k ==> !rects[1..][j].0.CollidePoint(px, py);
    assert rects[k + 1].0.CollidePoint(px, py) && rects[k + 1].1 == c;
    forall j | 0 <= j < k + 1
      ensures !rects[j].0.CollidePoint(px, py)
    {
      if j > 0 {
        assert rects[j] == rects[1..][j - 1];
      }
    }
  }

  /** The events of one `update` call, in order. */
  function Run(s: Session, linesByVisit: seq<seq<Entry>>, node: Entry, near: bool, rects: seq<(Rect, Choice)>,
               events: seq<Event>, picks: seq<bool>): Session
    requires |picks| == |events|
    decreases |events|
  {
    if events == [] then s
    else
      var n := |events| - 1;
      OnEvent(Run(s, linesByVisit, node, near, rects, events[..n], picks[..n]), linesByVisit, node, near, rects, events[n], picks[n])
  }

  // -----------------------------------------------------------------------
  // What the transitions promise
  // -----------------------------------------------------------------------

  /** Starting a talk counts one more visit, opens the conversation on its
      first line, and shows the chosen set, or "..." for an empty set. */
  lemma StartOpens(s: Session, linesByVisit: seq<seq<Entry>>, pick: bool)
    ensures var t := Start(s, linesByVisit, pick);
            var chosen := SelectLines(linesByVisit, s.visitCount + 1, pick);
      && t.visitCount == s.visitCount + 1
      && t.idx == 0 && t.talkActive
      && t.activeLines == (if chosen == [] then [Ellipsis] else chosen)
      && Inv(t)
  {
  }

  /** A choice that leads to lines reopens on the first of them, one that
      leads to a line shows just that line, anything else only closes;
      the visit count is never touched. */
  lemma ApplyChoiceSpec(s: Session, c: Choice)
    requires Inv(s)
    ensures var t := ApplyChoice(s, c);
      && t.visitCount == s.visitCount
      && Inv(t)
      && (c.next.NextLines? && c.next.lines != [] ==>
            t.activeLines == c.next.lines && t.idx == 0 && t.talkActive)
      && (c.next.NextText? && c.next.line != "" ==>
            t.activeLines == [Plain(c.next.line)] && t.idx == 0 && t.talkActive)
      && (!(c.next.NextLines? && c.next.lines != []) && !(c.next.NextText? && c.next.line != "") ==>
            t == s.(talkActive := false))
  {
  }

  /** Space while near: opens a closed conversation, is ignored on a line
      with choices, and otherwise moves to the next line, closing after
      the last one. */
  lemma SpaceWhileNear(s: Session, linesByVisit: seq<seq<Entry>>, node: Entry, rects: seq<(Rect, Choice)>, pick: bool)
    ensures var t := OnEvent(s, linesByVisit, node, true, rects, KeyDown(K_SPACE, " "), pick);
      && (!s.talkActive ==> t == Start(s, linesByVisit, pick))
      && (s.talkActive && HasChoices(node) ==> t == s)
      && (s.talkActive && !HasChoices(node) ==>
            t.idx == s.idx + 1 && t.visitCount == s.visitCount && t.activeLines == s.activeLines
            && (t.talkActive <==> s.idx + 1 < |s.activeLines|))
  {
  }

  /** Space out of range does nothing. */
  lemma SpaceWhenFar(s: Session, linesByVisit: seq<seq<Entry>>, node: Entry, rects: seq<(Rect, Choice)>, pick: bool)
    ensures OnEvent(s, linesByVisit, node, false, rects, KeyDown(K_SPACE, " "), pick) == s
  {
  }

  /** Keys 1..9 answer with the matching choice only on an open
      conversation whose captured line offers that many choices; in any
      other case they change nothing. Proximity plays no part. */
  lemma DigitKey(s: Session, linesByVisit: seq<seq<Entry>>, node: Entry, near: bool, rects: seq<(Rect, Choice)>, key: int, u: string, pick: bool)
    requires K_1 <= key <= K_9
    ensures var t := OnEvent(s, linesByVisit, node, near, rects, KeyDown(key, u), pick);
      && (s.talkActive && HasChoices(node) && key - K_1 < |node.choices| ==>
            t == ApplyChoice(s, node.choices[key - K_1]))
      && (!(s.talkActive && HasChoices(node) && key - K_1 < |node.choices|) ==> t == s)
  {
  }

  /** A left click answers with the first choice button under the cursor,
      on an open conversation whose captured line offers choices; any
      other click changes nothing. */
  lemma ClickChoice(s: Session, linesByVisit: seq<seq<Entry>>, node: Entry, near: bool, rects: seq<(Rect, Choice)>,
                    button: int, px: int, py: int, pick: bool)
    ensures var t := OnEvent(s, linesByVisit, node, near, rects, MouseDown(button, px, py), pick);
            var hit := FirstHit(rects, px, py);
      && (button == 1 && s.talkActive && HasChoices(node) && hit.Some? ==> t == ApplyChoice(s, hit.value))
      && (button != 1 || !s.talkActive || !HasChoices(node) || hit.None? ==> t == s)
  {
  }

  /** One event adds one visit exactly when it starts a conversation. */
  lemma OnEventVisits(s: Session, linesByVisit: seq<seq<Entry>>, node: Entry, near: bool, rects: seq<(Rect, Choice)>, e: Event, pick: bool)
    ensures var t := OnEvent(s, linesByVisit, node, near, rects, e, pick);
      t.visitCount == if IsTalkKey(e, near) && !s.talkActive then s.visitCount + 1 else s.visitCount
  {
  }

  lemma OnEventKeepsInv(s: Session, linesByVisit: seq<seq<Entry>>, node: Entry, near: bool, rects: seq<(Rect, Choice)>, e: Event, pick: bool)
    requires Inv(s)
    ensures Inv(OnEvent(s, linesByVisit, node, near, rects, e, pick))
  {
  }

  /** Over a whole `update` the cursor stays on a line while talking. */
  lemma {:induction false} RunKeepsInv(s: Session, linesByVisit: seq<seq<Entry>>, node: Entry, near: bool, rects: seq<(Rect, Choice)>,
                                       events: seq<Event>, picks: seq<bool>)
    requires Inv(s) && |picks| == |events|
    ensures Inv(Run(s, linesByVisit, node, near, rects, events, picks))
    decreases |events|
  {
    if events != [] {
      var n := |events| - 1;
      RunKeepsInv(s, linesByVisit, node, near, rects, events[..n], picks[..n]);
      OnEventKeepsInv(Run(s, linesByVisit, node, near, rects, events[..n], picks[..n]), linesByVisit, node, near, rects, events[n], picks[n]);
    }
  }

  /** The visit count never goes down, and grows by at most one per event. */
  lemma {:induction false} RunVisitsGrow(s: Session, linesByVisit: seq<seq<Entry>>, node: Entry, near: bool, rects: seq<(Rect, Choice)>,
                                         events: seq<Event>, picks: seq<bool>)
    requires |picks| == |events|
    ensures s.visitCount <= Run(s, linesByVisit, node, near, rects, events, picks).visitCount <= s.visitCount + |events|
    decreases |events|
  {
    if events != [] {
      var n := |events| - 1;
      RunVisitsGrow(s, linesByVisit, node, near, rects, events[..n], picks[..n]);
      OnEventVisits(Run(s, linesByVisit, node, near, rects, events[..n], picks[..n]), linesByVisit, node, near, rects, events[n], picks[n]);
    }
  }

  /** `near`: the distance between the rectangle centres is within range.
      Comparing squares is the same test as `sqrt(dx*dx + dy*dy) <= range`
      for a non-negative range. */
  predicate IsNear(player: Rect, npc: Rect, range: int)
  {
    var dx := player.CenterX() - npc.CenterX();
    var dy := player.CenterY() - npc.CenterY();
    dx * dx + dy * dy <= range * range
  }

  // -----------------------------------------------------------------------
  // Scenarios with the shipped database
  // -----------------------------------------------------------------------

  /** The first talk with 워니 shows the first authored set. */
  lemma FirstVisitToWonee(pick: bool)
    ensures var t := Start(Initial, LinesFor(DialogueDb, "워니"), pick);
      t.visitCount == 1 && t.activeLines == DialogueDb["워니"][0]
  {
  }

  /** The sixth talk with 워니 shows the third or the fourth set. */
  lemma SixthVisitToWonee(s: Session, pick: bool)
    requires s.visitCount == 5
    ensures var t := Start(s, LinesFor(DialogueDb, "워니"), pick);
      t.visitCount == 6 && t.activeLines in {DialogueDb["워니"][2], DialogueDb["워니"][3]}
  {
  }

  // -----------------------------------------------------------------------
  // The NPC object
  // -----------------------------------------------------------------------

  class Npc {
    const npcId: string
    const name: string
    const w: int
    const h: int
    const linesByVisit: seq<seq<Entry>>
    const range: int
    var posX: int
    var posY: int
    var activeLines: seq<Entry>
    var visitCount: nat
    var idx: nat
    var talkActive: bool
    /** `_choice_rects`: the choice buttons of the last drawn dialog. */
    var choiceRects: seq<(Rect, Choice)>

    function State(): Session
      reads this
    {
      Session(visitCount, activeLines, idx, talkActive)
    }

    /** `rect`. */
    function Bounds(): Rect
      reads this
    {
      Rect(posX, posY, w, h)
    }

    ghost predicate Valid()
      reads this
    {
      Inv(State())
    }

    /** `NPC(npc_id, world_x, level)`: `supportY` is
        `level.get_support_y(world_x)`; the NPC stands on it. */
    constructor (npcId: string, worldX: int, supportY: int)
      ensures this.npcId == npcId && name == npcId
      ensures w == 32 && h == 56 && range == TalkRange
      ensures posX == worldX && posY == supportY - 56
      ensures linesByVisit == LinesFor(DialogueDb, npcId)
      ensures State() == Initial && Valid() && choiceRects == []
    {
      this.npcId := npcId;
      name := npcId;
      w, h := 32, 56;
      range := TalkRange;
      posX, posY := worldX, supportY - 56;
      linesByVisit := LinesFor(DialogueDb, npcId);
      activeLines := [];
      visitCount := 0;
      idx := 0;
      talkActive := false;
      choiceRects := [];
    }

    /** `_start_conversation`; `pick` reports what `random.choice` drew. */
    method StartConversation() returns (pick: bool)
      modifies this
      ensures State() == Start(old(State()), linesByVisit, pick)
      ensures posX == old(posX) && posY == old(posY) && choiceRects == old(choiceRects)
      ensures Valid()
    {
      pick :| true;
      var chosen := SelectLines(linesByVisit, visitCount + 1, pick);
      visitCount := visitCount + 1;
      activeLines := if chosen == [] then [Ellipsis] else chosen;
      idx := 0;
      talkActive := true;
    }

    /** `_apply_choice`. */
    method ApplyChoiceOf(c: Choice)
      requires Valid()
      modifies this
      ensures State() == ApplyChoice(old(State()), c)
      ensures posX == old(posX) && posY == old(posY) && choiceRects == old(choiceRects)
      ensures Valid()
    {
      match c.next
      case NextLines(ls) =>
        if ls != [] {
          activeLines := ls;
          idx := 0;
          talkActive := true;
          return;
        }
        talkActive := false;
      case NextText(t) =>
        if t != "" {
          activeLines := [Plain(t)];
          idx := 0;
          talkActive := true;
          return;
        }
        talkActive := false;
      case NextNone =>
        talkActive := false;
    }

    /** The body of `update`'s event loop for one event. */
    method HandleEvent(e: Event, node: Entry, hasChoices: bool, near: bool) returns (pick: bool)
      requires Valid() && hasChoices == HasChoices(node)
      modifies this
      ensures State() == OnEvent(old(State()), linesByVisit, node, near, choiceRects, e, pick)
      ensures posX == old(posX) && posY == old(posY) && choiceRects == old(choiceRects)
      ensures Valid()
    {
      pick := false;
      if e.KeyDown? && e.key == K_SPACE && near {
        if !talkActive {
          pick := StartConversation();
        } else {
          if hasChoices {
            return;
          }
          idx := idx + 1;
          if idx >= |activeLines| {
            talkActive := false;
          }
        }
      }
      if e.KeyDown? && talkActive && hasChoices {
        if K_1 <= e.key <= K_9 {
          var ci := e.key - K_1;
          var choices := node.choices;
          if 0 <= ci < |choices| {
            ApplyChoiceOf(choices[ci]);
          }
        }
      }
      if e.MouseDown? && e.button == 1 && talkActive && hasChoices {
        var mx, my := e.px, e.py;
        var hit: Option<Choice> := None;
        var k := 0;
        while k < |choiceRects| && hit.None?
          invariant 0 <= k <= |choiceRects|
          invariant hit.None? ==> forall j :: 0 <= j < k ==> !choiceRects[j].0.CollidePoint(mx, my)
          invariant hit.Some? ==> hit == FirstHit(choiceRects, mx, my)
        {
          if choiceRects[k].0.CollidePoint(mx, my) {
            hit := Some(choiceRects[k].1);
          }
          k := k + 1;
        }
        if hit.Some? {
          ApplyChoiceOf(hit.value);
        }
      }
    }

    /** `update(player_rect, events)`: returns
        whether the player is near, and the random draws of the talks it
        started (one entry per event, unused entries are false). */
    method Update(player: Rect, events: seq<Event>) returns (near: bool, picks: seq<bool>)
      requires Valid()
      modifies this
      ensures near == IsNear(player, Bounds(), range)
      ensures |picks| == |events|
      ensures State() == Run(old(State()), linesByVisit, CurrentNode(old(State())), near, choiceRects, events, picks)
      ensures posX == old(posX) && posY == old(posY) && choiceRects == old(choiceRects)
      ensures Valid()
    {
      var me := Bounds();
      var dx := player.CenterX() - me.CenterX();
      var dy := player.CenterY() - me.CenterY();
      near := dx * dx + dy * dy <= range * range;
      var node := CurrentNode(State());
      var hasChoices := HasChoices(node);
      ghost var s0 := State();
      picks := [];
      for i := 0 to |events|
        invariant |picks| == i
        invariant State() == Run(s0, linesByVisit, node, near, choiceRects, events[..i], picks)
        invariant Valid()
        invariant posX == old(posX) && posY == old(posY) && choiceRects == old(choiceRects)
      {
        var pick := HandleEvent(events[i], node, hasChoices, near);
        assert events[..i + 1][..i] == events[..i];
        picks := picks + [pick];
        assert picks[..i] == picks[..i + 1][..i];
      }
      assert events[..|events|] == events;
    }
  }

  // -----------------------------------------------------------------------
  // Word wrapping for the dialog panel
  // -----------------------------------------------------------------------

  /** Stripping a space and one word leaves no space. */
  lemma StripSpaceWord(w: string)
    requires ' ' !in w
    ensures ' ' !in Strip(" " + w)
  {
    var s := " " + w;
    var i := SkipLeft(s, 0);
    assert i >= 1;
    var r := Strip(s);
    forall k | 0 <= k < |r|
      ensures r[k] != ' '
    {
      assert r[k] == s[i + k] == w[i + k - 1];
    }
  }

  /** The candidate line `(cur + " " + w).strip()` holds the visible text
      of `cur` followed by that of `w`. */
  lemma VisibleCandidate(cur: string, w: string)
    ensures Visible(Strip(cur + " " + w)) == Visible(cur) + Visible(w)
  {
    var head := cur + " ";
    VisibleStrip(head + w);
    VisibleAppend(head, w);
    VisibleAppend(cur, " ");
    VisibleOne(' ');
    assert Visible(head) == Visible(cur);
  }

  /** Extending the current line with `w` keeps the lines' visible text in
      step with the words read, and a blank prefix still gives no line. */
  lemma VisibleExtend(lines: seq<string>, cur: string, w: string, prefix: string)
    requires Visible(Concat(lines)) + Visible(cur) == prefix
    requires prefix == [] ==> lines == [] && cur == ""
    ensures Visible(Concat(lines)) + Visible(Strip(cur + " " + w)) == prefix + Visible(w)
    ensures prefix + Visible(w) == [] ==> lines == [] && Strip(cur + " " + w) == ""
  {
    VisibleCandidate(cur, w);
    if prefix + Visible(w) == [] {
      BlankCandidate(cur, w);
    }
  }

  /** A candidate line made of blanks strips to nothing. */
  lemma BlankCandidate(cur: string, w: string)
    requires Visible(cur) == [] && Visible(w) == []
    ensures Strip(cur + " " + w) == ""
  {
    VisibleCandidate(cur, w);
    VisibleStrip(cur + " " + w);
    VisibleBlankStrip(cur + " " + w);
  }

  /** Closing the non-empty current line and starting a new one at `w`
      keeps the lines' visible text in step with the words read. */
  lemma VisibleBreak(lines: seq<string>, cur: string, w: string, prefix: string)
    requires Visible(Concat(lines)) + Visible(cur) == prefix
    requires prefix == [] ==> cur == ""
    requires cur != ""
    ensures Visible(Concat(lines + [cur])) + Visible(w) == prefix + Visible(w)
    ensures prefix + Visible(w) != []
  {
    ConcatSnoc(lines, cur);
    VisibleAppend(Concat(lines), cur);
  }

  /** Where `_wrap_text`'s loop stands: the lines closed so far and the
      line being filled. */
  datatype Wrapping = Wrapping(lines: seq<string>, cur: string)

  /** One turn of the loop: `w` joins the current line when the result fits
      or the line is empty, and otherwise closes it and starts the next. */
  function WrapStep(f: Wrapping, w: string, width: string -> int, maxW: int): Wrapping
  {
    var test := Strip(f.cur + " " + w);
    if width(test) <= maxW || f.cur == "" then Wrapping(f.lines, test)
    else Wrapping(f.lines + [f.cur], w)
  }

  /** Where the loop stands after the given words. */
  function WrapWords(words: seq<string>, width: string -> int, maxW: int): Wrapping
    decreases |words|
  {
    if words == [] then Wrapping([], "")
    else WrapStep(WrapWords(words[..|words| - 1], width, maxW), words[|words| - 1], width, maxW)
  }

  /** Over words without spaces, every closed line is non-empty and fits
      or is one word, and so is the current line. */
  lemma {:induction false} WrapWordsShape(words: seq<string>, width: string -> int, maxW: int)
    requires forall w :: w in words ==> ' ' !in w
    ensures var f := WrapWords(words, width, maxW);
            && (forall l :: l in f.lines ==> l != "" && (width(l) <= maxW || ' ' !in l))
            && (f.cur == "" || width(f.cur) <= maxW || ' ' !in f.cur)
    decreases |words|
  {
    if words != [] {
      var ws, w := words[..|words| - 1], words[|words| - 1];
      assert forall x :: x in ws ==> x in words;
      assert w in words;
      WrapWordsShape(ws, width, maxW);
      var f := WrapWords(ws, width, maxW);
      var g := WrapWords(words, width, maxW);
      var test := Strip(f.cur + " " + w);
      if width(test) <= maxW || f.cur == "" {
        assert g == Wrapping(f.lines, test);
        if f.cur == "" {
          assert f.cur + " " + w == " " + w;
          StripSpaceWord(w);
        }
      } else {
        assert g == Wrapping(f.lines + [f.cur], w);
      }
    }
  }

  /** The closed lines and the current one hold the visible text of the
      words read, and blank words close no line. */
  lemma {:induction false} WrapWordsContent(words: seq<string>, width: string -> int, maxW: int)
    ensures var f := WrapWords(words, width, maxW);
            && Visible(Concat(f.lines)) + Visible(f.cur) == Visible(Concat(words))
            && (Visible(Concat(words)) == [] ==> f.lines == [] && f.cur == "")
    decreases |words|
  {
    if words != [] {
      var ws, w := words[..|words| - 1], words[|words| - 1];
      WrapWordsContent(ws, width, maxW);
      var f := WrapWords(ws, width, maxW);
      var prefix := Visible(Concat(ws));
      assert words == ws + [w];
      ConcatSnoc(ws, w);
      VisibleAppend(Concat(ws), w);
      assert Visible(Concat(words)) == prefix + Visible(w);
      var g := WrapWords(words, width, maxW);
      var test := Strip(f.cur + " " + w);
      if width(test) <= maxW || f.cur == "" {
        assert g == Wrapping(f.lines, test);
        VisibleExtend(f.lines, f.cur, w, prefix);
      } else {
        assert g == Wrapping(f.lines + [f.cur], w);
        VisibleBreak(f.lines, f.cur, w, prefix);
      }
    }
  }

  /** The lines `_wrap_text` returns: the closed lines, then the current
      one when it is not empty. */
  function Wrapped(text: string, width: string -> int, maxW: int): seq<string>
  {
    var f := WrapWords(Split(text, ' '), width, maxW);
    f.lines + (if f.cur != "" then [f.cur] else [])
  }

  /** Every returned line is non-empty and fits or is a single word. */
  lemma WrappedShape(text: string, width: string -> int, maxW: int)
    ensures forall l :: l in Wrapped(text, width, maxW) ==> l != "" && (width(l) <= maxW || ' ' !in l)
  {
    WrapWordsShape(Split(text, ' '), width, maxW);
  }

  /** The returned lines hold the text's visible characters in order, and
      there are none exactly when the text is all white space. */
  lemma WrappedContent(text: string, width: string -> int, maxW: int)
    ensures Visible(Concat(Wrapped(text, width, maxW))) == Visible(text)
    ensures Wrapped(text, width, maxW) == [] <==> AllSpace(text)
  {
    var words := Split(text, ' ');
    var f := WrapWords(words, width, maxW);
    var lines := Wrapped(text, width, maxW);
    WrapWordsContent(words, width, maxW);
    SplitJoin(text, ' ');
    VisibleJoin(words);
    assert Visible(Concat(f.lines)) + Visible(f.cur) == Visible(text);
    if f.cur != "" {
      assert lines == f.lines + [f.cur];
      ConcatSnoc(f.lines, f.cur);
      VisibleAppend(Concat(f.lines), f.cur);
    } else {
      assert lines == f.lines;
      assert Visible(f.cur) == [];
    }
    VisibleEmptyIffBlank(text);
    if lines == [] {
      assert Concat(lines) == [];
    }
  }

  /** `_wrap_text`: splits on single spaces and fills lines greedily;
      `width` is the font's pixel width of a string. Every line is
      non-empty, and a line wider than `maxW` is a single word. No
      character other than white space is lost, added or reordered, so a
      text that is not all white space gives at least one line and one
      that is gives none. */
  method WrapText(text: string, width: string -> int, maxW: int) returns (lines: seq<string>)
    ensures forall l :: l in lines ==> l != "" && (width(l) <= maxW || ' ' !in l)
    ensures Visible(Concat(lines)) == Visible(text)
    ensures lines == [] <==> AllSpace(text)
  {
    var words := Split(text, ' ');
    lines := [];
    var cur := "";
    for i := 0 to |words|
      invariant Wrapping(lines, cur) == WrapWords(words[..i], width, maxW)
    {
      var w := words[i];
      assert words[..i + 1][..i] == words[..i];
      var test := Strip(cur + " " + w);
      if width(test) <= maxW || cur == "" {
        cur := test;
      } else {
        lines := lines + [cur];
        cur := w;
      }
    }
    assert words[..|words|] == words;
    if cur != "" {
      lines := lines + [cur];
    }
    assert lines == Wrapped(text, width, maxW);
    WrappedShape(text, width, maxW);
    WrappedContent(text, width, maxW);
  }
}
