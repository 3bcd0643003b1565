/** The chat-history block and the chat prompt sent to the language model
    (ask_coach.py). The clock, ISO-date parsing and date formatting are
    parameters: `now` is the current time, `parseIso` is
    `datetime.fromisoformat` (None when it raises) and `formatDate` is
    `strftime('%Y-%m-%d')`. Times are integers in seconds. */
module AskCoach {
  import opened Wrappers
  import opened Strings
  import opened Models

  /** The default of `max_age_days`: two weeks. */
  const DefaultMaxAgeDays := 14

  /** A timestamp attribute: a datetime or a string still to be parsed. */
  datatype Stamp = Time(t: int) | Text(s: string)

  /** A chat message as `build_chat_history` sees it through `getattr`. */
  datatype Message = Message(
    timestamp: Field<Stamp>,
    createdAt: Field<Stamp>,
    sender: Field<string>,
    content: Field<string>)

  /** A kept message with its resolved time: the `(ts, m)` pairs. */
  datatype Entry = Entry(ts: int, msg: Message)

  /** Python truthiness of a timestamp attribute: `None` and `""` are false. */
  predicate Truthy(f: Field<Stamp>) {
    f.Given? && f.value != Text("")
  }

  /** `timestamp or created_at or now`, then a string is parsed, falling back
      to `now` when it does not parse. */
  function ResolveTime(m: Message, now: int, parseIso: string -> Option<int>): int {
    var st := if Truthy(m.timestamp) then m.timestamp.value
              else if Truthy(m.createdAt) then m.createdAt.value
              else Time(now);
    match st
    case Time(t) => t
    case Text(s) => parseIso(s).GetOr(now)
  }

  /** The resolution order of the timestamp: `timestamp` first, then
      `created_at`, then the clock; a string that does not parse counts as now. */
  lemma ResolveTimeChain(m: Message, now: int, parseIso: string -> Option<int>)
    ensures m.timestamp.Given? && m.timestamp.value.Time? ==> ResolveTime(m, now, parseIso) == m.timestamp.value.t
    ensures Truthy(m.timestamp) && m.timestamp.value.Text? && parseIso(m.timestamp.value.s).Some?
      ==> ResolveTime(m, now, parseIso) == parseIso(m.timestamp.value.s).value
    ensures Truthy(m.timestamp) && m.timestamp.value.Text? && parseIso(m.timestamp.value.s).None?
      ==> ResolveTime(m, now, parseIso) == now
    ensures !Truthy(m.timestamp) && m.createdAt.Given? && m.createdAt.value.Time?
      ==> ResolveTime(m, now, parseIso) == m.createdAt.value.t
    ensures !Truthy(m.timestamp) && Truthy(m.createdAt) && m.createdAt.value.Text? && parseIso(m.createdAt.value.s).Some?
      ==> ResolveTime(m, now, parseIso) == parseIso(m.createdAt.value.s).value
    ensures !Truthy(m.timestamp) && Truthy(m.createdAt) && m.createdAt.value.Text? && parseIso(m.createdAt.value.s).None?
      ==> ResolveTime(m, now, parseIso) == now
    ensures !Truthy(m.timestamp) && !Truthy(m.createdAt) ==> ResolveTime(m, now, parseIso) == now
    ensures (m.timestamp.Given? || m.createdAt.Given?) && ResolveTime(m, now, parseIso) != now
      ==> exists f :: f in {m.timestamp, m.createdAt} && Truthy(f)
  {
  }

  /** A string timestamp that does not parse resolves to the clock's time. */
  lemma UnparsedIsNow(m: Message, now: int, parseIso: string -> Option<int>)
    requires Truthy(m.timestamp) && m.timestamp.value.Text?
    requires parseIso(m.timestamp.value.s).None?
    ensures ResolveTime(m, now, parseIso) == now
  {
  }

  /** `(now - ts) <= timedelta(days=max_age_days)`. */
  predicate Recent(ts: int, now: int, maxAgeDays: int) {
    now - ts <= maxAgeDays * SecondsPerDay
  }

  /** The boundary is inclusive, messages from the future are always kept,
      and a message whose time resolved to the clock is kept for any
      non-negative window. */
  lemma RecentEdges(ts: int, now: int, maxAgeDays: int)
    ensures Recent(now - maxAgeDays * SecondsPerDay, now, maxAgeDays)
    ensures !Recent(now - maxAgeDays * SecondsPerDay - 1, now, maxAgeDays)
    ensures maxAgeDays >= 0 && ts >= now ==> Recent(ts, now, maxAgeDays)
    ensures maxAgeDays >= 0 ==> Recent(now, now, maxAgeDays)
  {
  }

  /** The first loop of `build_chat_history`: messages paired with their
      resolved time, only the recent ones, in input order. */
  function KeepRecent(msgs: seq<Message>, now: int, maxAgeDays: int, parseIso: string -> Option<int>): (kept: seq<Entry>)
    ensures |kept| <= |msgs|
    ensures forall e :: e in kept ==>
      (e.msg in msgs && e.ts == ResolveTime(e.msg, now, parseIso) && Recent(e.ts, now, maxAgeDays))
    ensures forall i :: 0 <= i < |msgs| ==>
      (Recent(ResolveTime(msgs[i], now, parseIso), now, maxAgeDays)
       ==> Entry(ResolveTime(msgs[i], now, parseIso), msgs[i]) in kept)
    decreases |msgs|
  {
    if |msgs| == 0 then []
    else
      var ts := ResolveTime(msgs[0], now, parseIso);
      var rest := KeepRecent(msgs[1..], now, maxAgeDays, parseIso);
      assert forall i :: 1 <= i < |msgs| ==> msgs[i] == msgs[1..][i - 1];
      if Recent(ts, now, maxAgeDays) then [Entry(ts, msgs[0])] + rest else rest
  }

  /** Filtering commutes with concatenation, so the kept entries are the
      recent messages in their input order; a single message is kept exactly
      when it is recent. */
  lemma {:induction false} KeepRecentAppend(a: seq<Message>, b: seq<Message>, now: int, maxAgeDays: int,
                                            parseIso: string -> Option<int>)
    ensures KeepRecent(a + b, now, maxAgeDays, parseIso)
         == KeepRecent(a, now, maxAgeDays, parseIso) + KeepRecent(b, now, maxAgeDays, parseIso)
    ensures |a| == 1 ==>
      (KeepRecent(a, now, maxAgeDays, parseIso)
       == if Recent(ResolveTime(a[0], now, parseIso), now, maxAgeDays)
          then [Entry(ResolveTime(a[0], now, parseIso), a[0])] else [])
    decreases |a|
  {
    if |a| > 0 {
      assert (a + b)[1..] == a[1..] + b;
      KeepRecentAppend(a[1..], b, now, maxAgeDays, parseIso);
      if |a| == 1 {
        assert KeepRecent(a[1..], now, maxAgeDays, parseIso) == [];
      }
    } else {
      assert a + b == b;
    }
  }

  /** A message whose string timestamp does not parse is kept whenever the
      window is non-negative. */
  lemma UnparsedIsKept(msgs: seq<Message>, i: int, now: int, maxAgeDays: int, parseIso: string -> Option<int>)
    requires 0 <= i < |msgs| && maxAgeDays >= 0
    requires Truthy(msgs[i].timestamp) && msgs[i].timestamp.value.Text?
    requires parseIso(msgs[i].timestamp.value.s).None?
    ensures Entry(now, msgs[i]) in KeepRecent(msgs, now, maxAgeDays, parseIso)
  {
    UnparsedIsNow(msgs[i], now, parseIso);
  }

  // ---------------------------------------------------------------------------
  // kept.sort(key=lambda x: x[0]): a stable sort by time
  // ---------------------------------------------------------------------------

  predicate Sorted(s: seq<Entry>) {
    forall i, j :: 0 <= i < j < |s| ==> s[i].ts <= s[j].ts
  }

  /** The entries stamped `t`, in their order in `s`. */
  function At(s: seq<Entry>, t: int): seq<Entry>
    decreases |s|
  {
    if |s| == 0 then [] else (if s[0].ts == t then [s[0]] else []) + At(s[1..], t)
  }

  /** Puts `e` before the first entry that is not earlier than it. */
  function Insert(e: Entry, s: seq<Entry>): (r: seq<Entry>)
    ensures multiset(r) == multiset(s) + multiset{e}
    decreases |s|
  {
    if |s| == 0 || e.ts <= s[0].ts then [e] + s
    else
      assert s == [s[0]] + s[1..];
      [s[0]] + Insert(e, s[1..])
  }

  /** Inserting into a sorted sequence keeps it sorted. */
  lemma {:induction false} InsertSorted(e: Entry, s: seq<Entry>)
    requires Sorted(s)
    ensures Sorted(Insert(e, s))
    decreases |s|
  {
    if |s| == 0 || e.ts <= s[0].ts {
    } else {
      var t := Insert(e, s[1..]);
      InsertSorted(e, s[1..]);
      forall j | 0 <= j < |t|
        ensures s[0].ts <= t[j].ts
      {
        assert t[j] in multiset(t);
        if t[j] != e {
          assert t[j] in multiset(s[1..]);
          var k :| 0 <= k < |s[1..]| && s[1..][k] == t[j];
          assert s[k + 1] == t[j];
        }
      }
      assert Insert(e, s) == [s[0]] + t;
    }
  }

  /** Inserting `e` puts it first among the entries stamped like it. */
  lemma {:induction false} AtInsert(e: Entry, s: seq<Entry>, t: int)
    ensures At(Insert(e, s), t) == (if e.ts == t then [e] else []) + At(s, t)
    decreases |s|
  {
    if |s| == 0 || e.ts <= s[0].ts {
      assert ([e] + s)[1..] == s;
    } else {
      AtInsert(e, s[1..], t);
      var r := [s[0]] + Insert(e, s[1..]);
      assert r[1..] == Insert(e, s[1..]);
    }
  }

  /** Python's `list.sort` with a key: ascending by time, ties in input order. */
  function SortByTime(s: seq<Entry>): (r: seq<Entry>)
    ensures Sorted(r)
    ensures multiset(r) == multiset(s)
    decreases |s|
  {
    if |s| == 0 then []
    else
      assert s == [s[0]] + s[1..];
      InsertSorted(s[0], SortByTime(s[1..]));
      Insert(s[0], SortByTime(s[1..]))
  }

  /** The sort is stable: the entries with any one time keep their input order. */
  lemma {:induction false} SortIsStable(s: seq<Entry>, t: int)
    ensures At(SortByTime(s), t) == At(s, t)
    decreases |s|
  {
    if |s| > 0 {
      SortIsStable(s[1..], t);
      AtInsert(s[0], SortByTime(s[1..]), t);
    }
  }

  /** A non-empty sequence has an entry stamped with its first time. */
  lemma AtFirst(s: seq<Entry>)
    ensures |s| > 0 ==> At(s, s[0].ts) != []
  {
  }

  lemma AtHead(s: seq<Entry>)
    requires |s| > 0 && Sorted(s)
    ensures At(s, s[0].ts) == [s[0]] + At(s[1..], s[0].ts)
  {
  }

  /** Every entry of `s` shows up among those stamped with its time. */
  lemma {:induction false} AtMembers(s: seq<Entry>, x: Entry)
    ensures x in s ==> x in At(s, x.ts)
    ensures forall y :: y in At(s, x.ts) ==> y in s && y.ts == x.ts
    decreases |s|
  {
    if |s| > 0 {
      AtMembers(s[1..], x);
    }
  }

  /** Sorted sequences with the same entries per time start alike. */
  lemma SameHead(a: seq<Entry>, b: seq<Entry>)
    requires |a| > 0 && |b| > 0 && Sorted(a) && Sorted(b)
    requires forall t :: At(a, t) == At(b, t)
    ensures a[0] == b[0]
  {
    AtMembers(a, a[0]);
    AtMembers(b, b[0]);
    AtMembers(a, b[0]);
    AtMembers(b, a[0]);
    assert a[0] in At(b, a[0].ts);
    assert b[0] in At(a, b[0].ts);
    assert a[0].ts == b[0].ts by {
      assert b[0].ts <= a[0].ts;
      assert a[0].ts <= b[0].ts;
    }
    AtHead(a);
    AtHead(b);
    assert a[0] == At(a, a[0].ts)[0] == At(b, a[0].ts)[0] == b[0];
  }

  /** Removing a common head keeps the entries per time equal. */
  lemma TailsAgree(a: seq<Entry>, b: seq<Entry>)
    requires |a| > 0 && |b| > 0 && a[0] == b[0]
    requires forall t :: At(a, t) == At(b, t)
    ensures forall t :: At(a[1..], t) == At(b[1..], t)
  {
    forall t
      ensures At(a[1..], t) == At(b[1..], t)
    {
      var p := if a[0].ts == t then [a[0]] else [];
      assert At(a, t) == p + At(a[1..], t);
      assert At(b, t) == p + At(b[1..], t);
      assert At(a[1..], t) == At(a, t)[|p|..];
      assert At(b[1..], t) == At(b, t)[|p|..];
    }
  }

  /** A sorted sequence is determined by its entries per time: any stable
      sort, Python's included, gives exactly `SortByTime`. */
  lemma {:induction false} SortedUnique(a: seq<Entry>, b: seq<Entry>)
    requires Sorted(a) && Sorted(b)
    requires forall t :: At(a, t) == At(b, t)
    ensures a == b
    decreases |a| + |b|
  {
    if |a| == 0 || |b| == 0 {
      assert |a| == 0 && |b| == 0 by {
        AtFirst(a);
        AtFirst(b);
      }
    } else {
      SameHead(a, b);
      TailsAgree(a, b);
      SortedUnique(a[1..], b[1..]);
      assert a == [a[0]] + a[1..];
      assert b == [b[0]] + b[1..];
    }
  }

  // ---------------------------------------------------------------------------
  // The output lines
  // ---------------------------------------------------------------------------

  const Header1 := "HISTORIA ROZMOWY (z datami):"
  const Header2 := "WAŻNE: Jeśli w historii padają zwroty typu 'jutro', 'za tydzień', traktuj je względem DATY danej wiadomości, nie względem dziś."
  const Header3 := "WAŻNE: Stare informacje czasowo-wrażliwe (podróże, krótkie plany, 'niedawno') uznaj za nieaktualne, jeśli użytkownik ich dziś nie potwierdzi."

  /** "Zawodnik" (athlete) for the user's messages, "Trener" (coach) for any
      other sender, a missing or `None` one included. */
  function RoleLabel(sender: Field<string>): (r: string)
    ensures r == "Zawodnik" <==> sender == Given("user")
    ensures r == "Zawodnik" || r == "Trener"
  {
    if sender == Given("user") then "Zawodnik" else "Trener"
  }

  /** `f"{getattr(m, 'content', '')}"`: a missing attribute gives "", an
      attribute holding `None` is rendered as "None". */
  function ContentText(content: Field<string>): string {
    match content
    case Absent => ""
    case Null => "None"
    case Given(s) => s
  }

  function EntryLine(e: Entry, formatDate: int -> string): string {
    "[" + formatDate(e.ts) + "] " + RoleLabel(e.msg.sender) + ": " + ContentText(e.msg.content)
  }

  function EntryLines(s: seq<Entry>, formatDate: int -> string): (lines: seq<string>)
    ensures |lines| == |s|
    ensures forall i :: 0 <= i < |s| ==> lines[i] == EntryLine(s[i], formatDate)
  {
    seq(|s|, i requires 0 <= i < |s| => EntryLine(s[i], formatDate))
  }

  /** The kept messages, oldest first. */
  function ChatEntries(msgs: seq<Message>, now: int, maxAgeDays: int, parseIso: string -> Option<int>): seq<Entry> {
    SortByTime(KeepRecent(msgs, now, maxAgeDays, parseIso))
  }

  /** The list `out` before it is joined: the three fixed header lines, then
      one dated, labelled line per kept message, in time order. */
  function HistoryLines(msgs: seq<Message>, now: int, maxAgeDays: int,
                        parseIso: string -> Option<int>, formatDate: int -> string): (lines: seq<string>)
    ensures var kept := KeepRecent(msgs, now, maxAgeDays, parseIso);
      && |lines| == 3 + |kept|
      && lines[..3] == [Header1, Header2, Header3]
      && forall i :: 0 <= i < |kept| ==>
           var e := ChatEntries(msgs, now, maxAgeDays, parseIso)[i];
           lines[3 + i] == "[" + formatDate(e.ts) + "] " + RoleLabel(e.msg.sender) + ": " + ContentText(e.msg.content)
  {
    var entries := ChatEntries(msgs, now, maxAgeDays, parseIso);
    assert |multiset(entries)| == |multiset(KeepRecent(msgs, now, maxAgeDays, parseIso))|;
    [Header1, Header2, Header3] + EntryLines(entries, formatDate)
  }

  /** The message lines come out in non-decreasing time, and messages with
      the same time in the order they were given. */
  lemma HistoryOrder(msgs: seq<Message>, now: int, maxAgeDays: int, parseIso: string -> Option<int>)
    ensures var entries := ChatEntries(msgs, now, maxAgeDays, parseIso);
      && (forall i, j :: 0 <= i < j < |entries| ==> entries[i].ts <= entries[j].ts)
      && (forall t :: At(entries, t) == At(KeepRecent(msgs, now, maxAgeDays, parseIso), t))
      && multiset(entries) == multiset(KeepRecent(msgs, now, maxAgeDays, parseIso))
  {
    var kept := KeepRecent(msgs, now, maxAgeDays, parseIso);
    forall t
      ensures At(SortByTime(kept), t) == At(kept, t)
    {
      SortIsStable(kept, t);
    }
  }

  /** `build_chat_history`: the lines joined with newlines. */
  function BuildChatHistory(msgs: seq<Message>, now: int, parseIso: string -> Option<int>,
                            formatDate: int -> string, maxAgeDays: int := DefaultMaxAgeDays): string {
    Join(HistoryLines(msgs, now, maxAgeDays, parseIso, formatDate), "\n")
  }

  /** When no line holds a newline, splitting the history at newlines gives
      back exactly the header lines and the message lines. */
  lemma HistorySplits(msgs: seq<Message>, now: int, maxAgeDays: int,
                      parseIso: string -> Option<int>, formatDate: int -> string)
    requires var lines := HistoryLines(msgs, now, maxAgeDays, parseIso, formatDate);
      forall i :: 0 <= i < |lines| ==> !Contains(lines[i], "\n")
    ensures Split(BuildChatHistory(msgs, now, parseIso, formatDate, maxAgeDays), '\n')
            == HistoryLines(msgs, now, maxAgeDays, parseIso, formatDate)
  {
    SplitJoin(HistoryLines(msgs, now, maxAgeDays, parseIso, formatDate), '\n');
  }

  // ---------------------------------------------------------------------------
  // build_chat_prompt
  // ---------------------------------------------------------------------------

  /** The fixed text of the chat prompt around its nine placeholders. */
  const ChatPromptPieces: seq<string> := [
    "Jesteś doświadczonym trenerem sportowym.\n\nDZIŚ: ",
    "\n\nKONTEKST (warstwowo, nie pełna baza):\n",
    "\n\n",
    "\n\n",
    "\n\n",
    "\n\nSYGNAŁY CHECK-IN (JSON):\n",
    "\n\nKONTEKST CELU (JSON):\n",
    "\n\n",
    "\n\nNOWE PYTANIE:\n",
    "\n\nZASADY ODPOWIEDZI:\n"
    + "- Krótko i konkretnie.\n"
    + "- Jeśli potrzebujesz doprecyzowania (np. ból, dostępność), zadaj 1-2 pytania.\n"
    + "- Używaj HTML do formatowania (<b>, <br>, <ul><li>). Bez Markdown.\n"
    + "- Każdą rekomendację uzasadnij: <b>Dlaczego</b> + <b>Na podstawie czego</b> (profil, ostatnie treningi, check-iny).\n"
    + "- Trzymaj się stałego kontraktu odpowiedzi (zawsze, w tej kolejności):\n"
    + "  1) <b>Plan</b> (maks 3 krótkie punkty),\n"
    + "  2) <b>Faza przygotowania</b> (base/build/taper/post-race + 1 zdanie),\n"
    + "  3) <b>Dlaczego</b>,\n"
    + "  4) <b>Na podstawie czego</b> (minimum 3 fakty w <ul><li>),\n"
    + "  5) <b>Ryzyko / uwaga</b> (1 krótki punkt),\n"
    + "  6) <b>Pytanie kontrolne</b> (dokładnie 1 pytanie).\n"
  ]

  /** `build_chat_prompt`: each of the nine arguments appears verbatim, in
      the order today_iso, profile_state, weekly_agg, recent_details,
      recent_checkins, checkin_signals, goal_context, chat_history,
      user_msg, each one starting after the previous one ends; the prompt
      opens with the coach persona line. */
  function BuildChatPrompt(todayIso: string, profileState: string, weeklyAgg: string,
                           recentDetails: string, recentCheckins: string, checkinSignals: string,
                           goalContext: string, chatHistory: string, userMsg: string): (r: string)
    ensures PlacesArgs(ChatPromptPieces, [todayIso, profileState, weeklyAgg, recentDetails, recentCheckins,
                                          checkinSignals, goalContext, chatHistory, userMsg], r)
  {
    var args := [todayIso, profileState, weeklyAgg, recentDetails, recentCheckins,
                 checkinSignals, goalContext, chatHistory, userMsg];
    FillPlacesArgs(ChatPromptPieces, args);
    Fill(ChatPromptPieces, args)
  }
}
