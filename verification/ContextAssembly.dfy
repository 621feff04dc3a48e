/**
 Assembling the history a run may see: the newest messages of the session, trimmed from the oldest on
 until the message, character and byte budgets are met.
 */
module ContextAssembly {
  import opened Common

  type Time = int

  datatype Budget = Budget(maxMessages: nat, maxCharsPerMessage: nat, maxTotalChars: nat, maxAge: nat, maxBytes: nat)

  /** Reading a message's body: it may have been deleted meanwhile, and the read may fail. */
  datatype Body = Found(text: string) | Missing | ReadFails

  datatype Message = Message(id: string, kind: string, body: Body, createdAt: Time)

  datatype Entry = Entry(id: string, kind: string, content: string, createdAt: Time, contentSha: string)

  datatype History = History(entries: seq<Entry>, trimmed: nat, totalChars: int, truncatedChars: nat, version: string)

  /** The hashes and the rendering, which are taken as they are. */
  datatype Encoding = Encoding(sha: string -> string, version: seq<Entry> -> string, digest: seq<Entry> -> string,
                               render: seq<Entry> -> string)

  datatype Input = Input(hasSession: bool, currentId: string, now: Time)

  datatype Error = InvalidInput | HistoryFailed | BudgetExceeded

  datatype SourceVersion = SourceVersion(version: string, count: nat, chars: int, trimmed: nat)

  datatype Snapshot = Snapshot(payload: string, digest: string, history: History, source: SourceVersion)

  const TEXT: string := "text"

  // ---- which messages are eligible ----

  ghost predicate Considered(b: Budget, i: Input, m: Message) {
    m.id != i.currentId && (b.maxAge > 0 ==> i.now - m.createdAt <= b.maxAge)
  }

  /** The entry of a message: text is cut to the per-message budget, a deleted text gives none. */
  ghost function EntryOf(b: Budget, e: Encoding, m: Message): (r: Option<Entry>)
    ensures r.None? <==> m.kind == TEXT && !m.body.Found?
    ensures r.Some? ==> r.value.id == m.id && r.value.kind == m.kind && r.value.createdAt == m.createdAt
    ensures m.kind != TEXT ==> r.value.content == "" && r.value.contentSha == ""
    ensures m.kind == TEXT && m.body.Found? ==>
              && r.value.content <= m.body.text && |r.value.content| == Min(|m.body.text|, b.maxCharsPerMessage)
              && r.value.contentSha == e.sha(m.body.text)
  {
    if m.kind != TEXT then Some(Entry(m.id, m.kind, "", m.createdAt, ""))
    else
      match m.body
      case Found(text) =>
        var content := if |text| > b.maxCharsPerMessage then text[..b.maxCharsPerMessage] else text;
        Some(Entry(m.id, m.kind, content, m.createdAt, e.sha(text)))
      case _ => None
  }

  /** What is cut off a message's text. */
  ghost function Cut(b: Budget, m: Message): (r: nat)
    ensures m.kind == TEXT && m.body.Found? ==> r + Min(|m.body.text|, b.maxCharsPerMessage) == |m.body.text|
    ensures !(m.kind == TEXT && m.body.Found?) ==> r == 0
  {
    if m.kind == TEXT && m.body.Found? && |m.body.text| > b.maxCharsPerMessage
    then |m.body.text| - b.maxCharsPerMessage else 0
  }

  /** The eligible entries, oldest first, of messages that are listed newest first. */
  ghost function Eligible(b: Budget, e: Encoding, i: Input, ms: seq<Message>): seq<Entry> {
    if ms == [] then []
    else
      var older := Eligible(b, e, i, ms[1..]);
      if Considered(b, i, ms[0]) && EntryOf(b, e, ms[0]).Some? then older + [EntryOf(b, e, ms[0]).value] else older
  }

  ghost function CutOf(b: Budget, i: Input, ms: seq<Message>): nat {
    if ms == [] then 0 else CutOf(b, i, ms[1..]) + if Considered(b, i, ms[0]) then Cut(b, ms[0]) else 0
  }

  ghost predicate Readable(b: Budget, i: Input, ms: seq<Message>) {
    forall k :: 0 <= k < |ms| && Considered(b, i, ms[k]) && ms[k].kind == TEXT ==> !ms[k].body.ReadFails?
  }

  /** The newest messages, one more than the budget allows; `all` is the whole session, newest first. */
  ghost function Window(b: Budget, all: seq<Message>): seq<Message> {
    all[..Min(|all|, b.maxMessages + 1)]
  }

  /**
   The session's messages can be listed, and every body in the window can be read; `session` is None
   when listing fails.
   */
  ghost predicate CanRead(b: Budget, i: Input, session: Option<seq<Message>>) {
    i.hasSession ==> session.Some? && Readable(b, i, Window(b, session.value))
  }

  /** The entries that could be shown to the run. */
  ghost function Shown(b: Budget, e: Encoding, i: Input, session: Option<seq<Message>>): seq<Entry> {
    if i.hasSession && session.Some? then Eligible(b, e, i, Window(b, session.value)) else []
  }

  /** The entries of the whole session, beyond the window. */
  ghost function WholeSession(b: Budget, e: Encoding, i: Input, session: Option<seq<Message>>): seq<Entry> {
    if i.hasSession && session.Some? then Eligible(b, e, i, session.value) else []
  }

  // ---- character counts ----

  ghost function Chars(entries: seq<Entry>): nat {
    if entries == [] then 0 else |entries[0].content| + Chars(entries[1..])
  }

  lemma {:induction false} CharsAppend(a: seq<Entry>, b: seq<Entry>)
    ensures Chars(a + b) == Chars(a) + Chars(b)
  {
    if a == [] {
      assert a + b == b;
    } else {
      CharsAppend(a[1..], b);
      assert (a + b)[1..] == a[1..] + b;
    }
  }

  /** A longer suffix has at least as many characters. */
  lemma CharsOfSuffix(entries: seq<Entry>, j: nat, k: nat)
    requires j <= k <= |entries|
    ensures Chars(entries[k..]) <= Chars(entries[j..])
  {
    assert entries[j..] == entries[j..k] + entries[k..];
    CharsAppend(entries[j..k], entries[k..]);
  }

  method TotalChars(entries: seq<Entry>) returns (total: nat)
    ensures total == Chars(entries)
  {
    total := 0;
    var n := 0;
    assert entries[..0] == [];
    while n < |entries|
      invariant n <= |entries| && total == Chars(entries[..n])
    {
      assert entries[..n + 1] == entries[..n] + [entries[n]];
      CharsAppend(entries[..n], [entries[n]]);
      total := total + |entries[n].content|;
      n := n + 1;
    }
    assert entries[..n] == entries;
  }

  // ---- the budgets ----

  /** The suffix from position k on meets the message and the character budget. */
  ghost predicate Short(b: Budget, entries: seq<Entry>, k: nat)
    requires k <= |entries|
  {
    |entries| - k <= b.maxMessages && Chars(entries[k..]) <= b.maxTotalChars
  }

  ghost predicate Fits(b: Budget, e: Encoding, entries: seq<Entry>, k: nat)
    requires k <= |entries|
  {
    Short(b, entries, k) && |e.render(entries[k..])| <= b.maxBytes
  }

  /** The numbers kept beside the entries are those one would compute from them. */
  ghost predicate Consistent(e: Encoding, h: History) {
    h.totalChars == Chars(h.entries) && h.version == e.version(h.entries)
  }

  /** What is kept is the stretch of the eligible entries that follows the trimmed ones. */
  ghost predicate SuffixOf(entries: seq<Entry>, h: History) {
    h.trimmed <= |entries| && h.entries == entries[h.trimmed..]
  }

  function DropOldest(e: Encoding, h: History): History {
    if h.entries == [] then h
    else
      h.(entries := h.entries[1..], trimmed := h.trimmed + 1, totalChars := h.totalChars - |h.entries[0].content|,
         version := e.version(h.entries[1..]))
  }

  /** Dropping the oldest entry keeps the counters in step with the entries. */
  lemma DropKeeps(e: Encoding, entries: seq<Entry>, h: History)
    requires Consistent(e, h) && SuffixOf(entries, h) && h.entries != []
    ensures Consistent(e, DropOldest(e, h)) && SuffixOf(entries, DropOldest(e, h))
    ensures DropOldest(e, h).trimmed == h.trimmed + 1
    ensures |DropOldest(e, h).entries| + DropOldest(e, h).trimmed == |h.entries| + h.trimmed
    ensures DropOldest(e, h).truncatedChars == h.truncatedChars
  {
    assert entries[h.trimmed..][1..] == entries[h.trimmed + 1..];
  }

  // ---- the loops ----

  method Candidates(b: Budget, i: Input, ms: seq<Message>) returns (kept: seq<Message>)
    ensures forall m :: m in kept <==> m in ms && Considered(b, i, m)
    ensures forall m ::
              m in kept <==> m in ms && m.id != i.currentId && (b.maxAge == 0 || i.now - m.createdAt <= b.maxAge)
    ensures forall e :: Eligible(b, e, i, kept) == Eligible(b, e, i, ms)
    ensures CutOf(b, i, kept) == CutOf(b, i, ms)
  {
    kept := [];
    var n := |ms|;
    assert ms[n..] == [];
    while n > 0
      invariant 0 <= n <= |ms|
      invariant forall m :: m in kept <==> m in ms[n..] && Considered(b, i, m)
      invariant forall e :: Eligible(b, e, i, kept) == Eligible(b, e, i, ms[n..])
      invariant CutOf(b, i, kept) == CutOf(b, i, ms[n..])
    {
      n := n - 1;
      assert ms[n..][0] == ms[n] && ms[n..][1..] == ms[n + 1..];
      assert CutOf(b, i, ms[n..]) == CutOf(b, i, ms[n + 1..]) + if Considered(b, i, ms[n]) then Cut(b, ms[n]) else 0;
      if ms[n].id != i.currentId && !(b.maxAge > 0 && i.now - ms[n].createdAt > b.maxAge) {
        assert CutOf(b, i, [ms[n]] + kept) == CutOf(b, i, ([ms[n]] + kept)[1..]) + Cut(b, ms[n]);
        assert ([ms[n]] + kept)[1..] == kept && ([ms[n]] + kept)[0] == ms[n];
        kept := [ms[n]] + kept;
      }
    }
    assert ms[0..] == ms;
  }

  datatype Built = Included(entry: Entry, truncated: nat) | LeftOut | Unreadable

  /** buildEntry: only text has content, which is cut; the hash is that of the whole text. */
  method BuildEntry(b: Budget, e: Encoding, m: Message) returns (r: Built)
    ensures r == Unreadable <==> m.kind == TEXT && m.body.ReadFails?
    ensures r == LeftOut <==> m.kind == TEXT && m.body.Missing?
    ensures r.Included? ==> EntryOf(b, e, m) == Some(r.entry) && r.truncated == Cut(b, m)
  {
    if m.kind != TEXT {
      return Included(Entry(m.id, m.kind, "", m.createdAt, ""), 0);
    }
    match m.body {
      case Missing => return LeftOut;
      case ReadFails => return Unreadable;
      case Found(text) =>
        var content, truncated := text, 0;
        if |content| > b.maxCharsPerMessage {
          truncated := |content| - b.maxCharsPerMessage;
          content := content[..b.maxCharsPerMessage];
        }
        r := Included(Entry(m.id, m.kind, content, m.createdAt, e.sha(text)), truncated);
    }
  }

  /** The entries of the candidates, oldest first; None when a body cannot be read. */
  method BuildEntries(b: Budget, e: Encoding, i: Input, kept: seq<Message>) returns (r: Option<(seq<Entry>, nat)>)
    requires forall m :: m in kept ==> Considered(b, i, m)
    ensures r.Some? <==> Readable(b, i, kept)
    ensures r.Some? ==> r.value.0 == Eligible(b, e, i, kept) && r.value.1 == CutOf(b, i, kept)
  {
    var entries: seq<Entry>, truncated := [], 0;
    var n := |kept|;
    assert kept[n..] == [];
    while n > 0
      invariant 0 <= n <= |kept|
      invariant entries == Eligible(b, e, i, kept[n..]) && truncated == CutOf(b, i, kept[n..])
      invariant forall k :: n <= k < |kept| && kept[k].kind == TEXT ==> !kept[k].body.ReadFails?
    {
      n := n - 1;
      var m := kept[n];
      assert kept[n..] == [m] + kept[n + 1..] && m in kept;
      var built := BuildEntry(b, e, m);
      match built {
        case Unreadable => return None;
        case LeftOut =>
        case Included(entry, cut) =>
          truncated := truncated + cut;
          entries := entries + [entry];
      }
    }
    assert kept[0..] == kept;
    r := Some((entries, truncated));
  }

  /** The longest suffix of the entries that meets the message and the character budget. */
  ghost predicate LongestShort(b: Budget, entries: seq<Entry>, kept: seq<Entry>) {
    && |kept| <= |entries| && kept == entries[|entries| - |kept|..] && Short(b, entries, |entries| - |kept|)
    && forall k :: 0 <= k < |entries| - |kept| ==> !Short(b, entries, k)
  }

  /** The window ends before the budgets do: the next older entry would still meet both. */
  ghost predicate CutShort(b: Budget, shown: seq<Entry>, all: seq<Entry>) {
    && |shown| < b.maxMessages && |shown| < |all|
    && |all[|all| - |shown| - 1].content| + Chars(shown) <= b.maxTotalChars
  }

  /** The two trimming loops of assembleHistory. */
  method Trim(b: Budget, all: seq<Entry>) returns (entries: seq<Entry>, trimmed: nat)
    ensures trimmed <= |all| && entries == all[trimmed..] && LongestShort(b, all, entries)
  {
    entries, trimmed := all, 0;
    while |entries| > b.maxMessages
      invariant trimmed <= |all| && entries == all[trimmed..]
      invariant forall k :: 0 <= k < trimmed ==> !Short(b, all, k)
      decreases |entries|
    {
      entries, trimmed := entries[1..], trimmed + 1;
    }
    var total := TotalChars(entries);
    while total > b.maxTotalChars && |entries| > 0
      invariant trimmed <= |all| && entries == all[trimmed..] && |entries| <= b.maxMessages && total == Chars(entries)
      invariant forall k :: 0 <= k < trimmed ==> !Short(b, all, k)
      decreases |entries|
    {
      entries, trimmed := entries[1..], trimmed + 1;
      total := TotalChars(entries);
    }
  }

  /**
   assembleHistory: the longest suffix of the window's entries that meets the message and the character
   budget together, with its counters; what is kept and what is trimmed make up all of them. It is the
   longest such suffix of the whole session too, exactly unless the window ends before the budgets do.
   */
  method AssembleHistory(b: Budget, e: Encoding, i: Input, session: Option<seq<Message>>)
    returns (r: Result<History, Error>)
    ensures r.Ok? <==> CanRead(b, i, session)
    ensures r.Err? ==> r.error == HistoryFailed
    ensures r.Ok? ==> SuffixOf(Shown(b, e, i, session), r.value) && Consistent(e, r.value)
    ensures r.Ok? ==> |r.value.entries| + r.value.trimmed == |Shown(b, e, i, session)|
    ensures r.Ok? ==> LongestShort(b, Shown(b, e, i, session), r.value.entries)
    ensures r.Ok? ==> (LongestShort(b, WholeSession(b, e, i, session), r.value.entries) <==>
                       !CutShort(b, Shown(b, e, i, session), WholeSession(b, e, i, session)))
    ensures r.Ok? ==> r.value.truncatedChars == if i.hasSession then CutOf(b, i, Window(b, session.value)) else 0
  {
    hide CutShort, LongestShort, Short, Chars, Eligible, CutOf, Readable, Considered, Window;
    if !i.hasSession {
      NothingToShow(b);
      return Ok(History([], 0, 0, 0, e.version([])));
    }
    if session.None? {
      return Err(HistoryFailed);
    }
    var limit, window := b.maxMessages + 1, session.value;
    if |window| > limit {
      window := window[..limit];
    }
    WindowIs(b, session.value, window);
    var kept := Candidates(b, i, window);
    ReadableKept(b, i, window, kept);
    var built := BuildEntries(b, e, i, kept);
    if built.None? {
      return Err(HistoryFailed);
    }
    ghost var all := built.value.0;
    assert all == Eligible(b, e, i, window);
    var entries, trimmed := Trim(b, built.value.0);
    WindowIsSuffix(b, e, i, session.value);
    WindowLongest(b, all, WholeSession(b, e, i, session), entries);
    var total := TotalChars(entries);
    r := Ok(History(entries, trimmed, total, built.value.1, e.version(entries)));
  }

  lemma WindowIs(b: Budget, all: seq<Message>, window: seq<Message>)
    requires window == if |all| > b.maxMessages + 1 then all[..b.maxMessages + 1] else all
    ensures window == Window(b, all)
  {
  }

  lemma NothingToShow(b: Budget)
    ensures LongestShort(b, [], []) && !CutShort(b, [], []) && Chars([]) == 0
  {
  }

  lemma ReadableKept(b: Budget, i: Input, ms: seq<Message>, kept: seq<Message>)
    requires forall m :: m in kept <==> m in ms && Considered(b, i, m)
    ensures Readable(b, i, kept) <==> Readable(b, i, ms)
  {
    assert forall k :: 0 <= k < |kept| ==> kept[k] in kept;
    assert forall k :: 0 <= k < |ms| ==> ms[k] in ms;
  }

  // ---- the window and the whole session ----

  lemma {:induction false} EligibleSplit(b: Budget, e: Encoding, i: Input, ms: seq<Message>, n: nat)
    requires n <= |ms|
    ensures Eligible(b, e, i, ms) == Eligible(b, e, i, ms[n..]) + Eligible(b, e, i, ms[..n])
  {
    if n == 0 {
      assert ms[0..] == ms;
    } else {
      EligibleSplit(b, e, i, ms[1..], n - 1);
      assert ms[1..][n - 1..] == ms[n..] && ms[..n][1..] == ms[1..][..n - 1];
    }
  }

  ghost predicate IsSuffix(shown: seq<Entry>, all: seq<Entry>) {
    |shown| <= |all| && shown == all[|all| - |shown|..]
  }

  lemma WindowIsSuffix(b: Budget, e: Encoding, i: Input, ms: seq<Message>)
    ensures IsSuffix(Eligible(b, e, i, Window(b, ms)), Eligible(b, e, i, ms))
  {
    EligibleSplit(b, e, i, ms, |Window(b, ms)|);
  }

  /** Within a suffix the budgets are met from the same entry on. */
  lemma ShortInSuffix(b: Budget, shown: seq<Entry>, all: seq<Entry>, k: nat)
    requires IsSuffix(shown, all) && k <= |shown|
    ensures Short(b, shown, k) <==> Short(b, all, |all| - |shown| + k)
  {
    assert shown[k..] == all[|all| - |shown| + k..];
  }

  lemma CutShortIs(b: Budget, shown: seq<Entry>, all: seq<Entry>)
    requires IsSuffix(shown, all)
    ensures CutShort(b, shown, all) <==> |shown| < |all| && Short(b, all, |all| - |shown| - 1)
  {
    if |shown| < |all| {
      var n := |all| - |shown| - 1;
      assert all[n..] == [all[n]] + shown;
    }
  }

  lemma WindowLongest(b: Budget, shown: seq<Entry>, all: seq<Entry>, kept: seq<Entry>)
    requires IsSuffix(shown, all) && LongestShort(b, shown, kept)
    ensures LongestShort(b, all, kept) <==> !CutShort(b, shown, all)
  {
    hide Short, CutShort;
    var older := |all| - |shown|;
    CutShortIs(b, shown, all);
    forall k | 0 <= k <= |shown| ensures Short(b, shown, k) <==> Short(b, all, older + k) {
      ShortInSuffix(b, shown, all, k);
    }
    assert kept == all[|all| - |kept|..];
    if !CutShort(b, shown, all) {
      forall k | 0 <= k < |all| - |kept| ensures !Short(b, all, k) {
        if k >= older {
          assert !Short(b, shown, k - older);
        } else if Short(b, all, k) {
          ShortIsMonotone(b, all, k, older - 1);
        }
      }
    } else if |kept| < |shown| {
      ShortIsMonotone(b, all, older - 1, older);
    }
  }

  /** A shorter suffix never breaks the message or the character budget. */
  lemma ShortIsMonotone(b: Budget, entries: seq<Entry>, j: nat, k: nat)
    requires j <= k <= |entries| && Short(b, entries, j)
    ensures Short(b, entries, k)
  {
    CharsOfSuffix(entries, j, k);
  }

  /** The history is the longest suffix of the entries that meets all three budgets. */
  ghost predicate Longest(b: Budget, e: Encoding, entries: seq<Entry>, h: History) {
    && SuffixOf(entries, h) && |h.entries| + h.trimmed == |entries|
    && Fits(b, e, entries, h.trimmed) && forall k :: 0 <= k < h.trimmed ==> !Fits(b, e, entries, k)
  }

  /** A snapshot's payload, digest and source data are those of its history. */
  ghost predicate Describes(e: Encoding, s: Snapshot) {
    && s.payload == e.render(s.history.entries) && s.digest == e.digest(s.history.entries)
    && s.source == SourceVersion(e.version(s.history.entries), |s.history.entries|, Chars(s.history.entries),
                                 s.history.trimmed)
  }

  /** The stretch of a trimming loop: what is kept so far, and no longer suffix fits. */
  ghost predicate Trimming(b: Budget, e: Encoding, entries: seq<Entry>, h: History) {
    && SuffixOf(entries, h) && |h.entries| + h.trimmed == |entries| && Consistent(e, h)
    && Short(b, entries, h.trimmed) && forall k :: 0 <= k < h.trimmed ==> !Fits(b, e, entries, k)
  }

  lemma DropTrims(b: Budget, e: Encoding, entries: seq<Entry>, h: History)
    requires Trimming(b, e, entries, h) && h.entries != [] && |e.render(h.entries)| > b.maxBytes
    ensures Trimming(b, e, entries, DropOldest(e, h)) && |DropOldest(e, h).entries| == |h.entries| - 1
    ensures DropOldest(e, h).truncatedChars == h.truncatedChars
  {
    hide Short, Chars;
    DropKeeps(e, entries, h);
    ShortIsMonotone(b, entries, h.trimmed, h.trimmed + 1);
  }

  /** assembleHistory leaves the byte loop to start with. */
  lemma StartTrims(b: Budget, e: Encoding, entries: seq<Entry>, h: History)
    requires SuffixOf(entries, h) && Consistent(e, h) && |h.entries| + h.trimmed == |entries|
    requires LongestShort(b, entries, h.entries)
    ensures Trimming(b, e, entries, h)
  {
  }

  /** Where the byte loop ends. */
  lemma EndTrims(b: Budget, e: Encoding, entries: seq<Entry>, h: History)
    requires Trimming(b, e, entries, h)
    ensures |e.render(h.entries)| <= b.maxBytes ==> Longest(b, e, entries, h) && Consistent(e, h)
    ensures |e.render(h.entries)| > b.maxBytes && h.entries == [] ==>
              forall k :: 0 <= k <= |entries| ==> !Fits(b, e, entries, k)
  {
    hide Short, Chars;
    assert Fits(b, e, entries, h.trimmed) <==> |e.render(h.entries)| <= b.maxBytes;
  }

  /** Some suffix meets all three budgets. */
  ghost predicate CanFit(b: Budget, e: Encoding, entries: seq<Entry>) {
    exists k :: 0 <= k <= |entries| && Fits(b, e, entries, k)
  }

  lemma NothingFits(b: Budget, e: Encoding, entries: seq<Entry>)
    requires forall k :: 0 <= k <= |entries| ==> !Fits(b, e, entries, k)
    ensures !CanFit(b, e, entries)
  {
  }

  lemma LongestFits(b: Budget, e: Encoding, entries: seq<Entry>, h: History)
    requires Longest(b, e, entries, h)
    ensures CanFit(b, e, entries)
  {
  }

  /**
   Assemble: the kept history is the longest suffix of the window's entries that meets all three
   budgets, and assembling fails for the budget exactly when not even an empty history does. It is the
   longest one of the whole session too, unless the window ends before the budgets do.
   */
  method Assemble(b: Budget, e: Encoding, i: Input, valid: bool, session: Option<seq<Message>>)
    returns (r: Result<Snapshot, Error>)
    ensures r == Err(InvalidInput) <==> !valid
    ensures r == Err(HistoryFailed) <==> valid && !CanRead(b, i, session)
    ensures r == Err(BudgetExceeded) <==> valid && CanRead(b, i, session) && !CanFit(b, e, Shown(b, e, i, session))
    ensures r.Ok? ==> Longest(b, e, Shown(b, e, i, session), r.value.history) && Consistent(e, r.value.history)
    ensures r.Ok? && !CutShort(b, Shown(b, e, i, session), WholeSession(b, e, i, session)) ==>
              LongestOf(b, e, WholeSession(b, e, i, session), r.value.history.entries)
    ensures r.Ok? ==> Describes(e, r.value)
    ensures r.Ok? && i.hasSession ==> r.value.history.truncatedChars == CutOf(b, i, Window(b, session.value))
    ensures r.Ok? && !i.hasSession ==> r.value.history.truncatedChars == 0
  {
    hide CutOf, Window;
    hide Short, Chars, Shown, CanRead, Fits, SuffixOf, Longest, Trimming, CanFit, LongestShort, CutShort, WholeSession;
    if !valid {
      return Err(InvalidInput);
    }
    ghost var entries := Shown(b, e, i, session);
    var assembled := AssembleHistory(b, e, i, session);
    if assembled.Err? {
      return Err(assembled.error);
    }
    var h := assembled.value;
    StartTrims(b, e, entries, h);
    var payload := e.render(h.entries);
    while |payload| > b.maxBytes && |h.entries| > 0
      invariant Trimming(b, e, entries, h) && payload == e.render(h.entries)
      invariant h.truncatedChars == assembled.value.truncatedChars
      decreases |h.entries|
    {
      DropTrims(b, e, entries, h);
      h := DropOldest(e, h);
      payload := e.render(h.entries);
    }
    EndTrims(b, e, entries, h);
    if |payload| > b.maxBytes {
      NothingFits(b, e, entries);
      return Err(BudgetExceeded);
    }
    LongestFits(b, e, entries, h);
    ShownIsSuffix(b, e, i, session);
    if !CutShort(b, entries, WholeSession(b, e, i, session)) {
      LongestOfWhole(b, e, entries, WholeSession(b, e, i, session), h);
    }
    r := Ok(Snapshot(payload, e.digest(h.entries), h, SourceVersion(h.version, |h.entries|, h.totalChars, h.trimmed)));
  }

  // ---- all three budgets over the whole session ----

  ghost predicate LongestOf(b: Budget, e: Encoding, all: seq<Entry>, kept: seq<Entry>) {
    && |kept| <= |all| && kept == all[|all| - |kept|..] && Fits(b, e, all, |all| - |kept|)
    && forall k :: 0 <= k < |all| - |kept| ==> !Fits(b, e, all, k)
  }

  lemma ShownIsSuffix(b: Budget, e: Encoding, i: Input, session: Option<seq<Message>>)
    ensures IsSuffix(Shown(b, e, i, session), WholeSession(b, e, i, session))
  {
    if i.hasSession && session.Some? {
      WindowIsSuffix(b, e, i, session.value);
    }
  }

  lemma FitsInSuffix(b: Budget, e: Encoding, shown: seq<Entry>, all: seq<Entry>, k: nat)
    requires IsSuffix(shown, all) && k <= |shown|
    ensures Fits(b, e, shown, k) <==> Fits(b, e, all, |all| - |shown| + k)
  {
    ShortInSuffix(b, shown, all, k);
    assert shown[k..] == all[|all| - |shown| + k..];
  }

  /** What fits best in the window fits best in the session as long as no longer suffix of the session fits. */
  lemma LongestLifts(b: Budget, e: Encoding, shown: seq<Entry>, all: seq<Entry>, h: History)
    requires IsSuffix(shown, all) && Longest(b, e, shown, h)
    ensures LongestOf(b, e, all, h.entries) <==> forall k :: 0 <= k < |all| - |shown| ==> !Fits(b, e, all, k)
  {
    hide Fits;
    var older := |all| - |shown|;
    forall k | 0 <= k <= |shown| ensures Fits(b, e, shown, k) <==> Fits(b, e, all, older + k) {
      FitsInSuffix(b, e, shown, all, k);
    }
    assert h.entries == all[|all| - |h.entries|..] && |all| - |h.entries| == older + h.trimmed;
    forall k | older <= k < older + h.trimmed ensures !Fits(b, e, all, k) {
      assert !Fits(b, e, shown, k - older);
    }
  }

  lemma LongestOfWhole(b: Budget, e: Encoding, shown: seq<Entry>, all: seq<Entry>, h: History)
    requires IsSuffix(shown, all) && Longest(b, e, shown, h) && !CutShort(b, shown, all)
    ensures LongestOf(b, e, all, h.entries)
  {
    hide Longest, LongestOf, Chars, CutShort;
    LongestLifts(b, e, shown, all, h);
    CutShortIs(b, shown, all);
    forall k | 0 <= k < |all| - |shown| ensures !Fits(b, e, all, k) {
      if Short(b, all, k) {
        ShortIsMonotone(b, all, k, |all| - |shown| - 1);
      }
    }
  }

  /** A rendering that does not shrink when an older entry is added, as JSON does. */
  ghost predicate Grows(e: Encoding) {
    forall entries :: entries != [] ==> |e.render(entries[1..])| <= |e.render(entries)|
  }

  lemma {:induction false} RenderedSuffix(e: Encoding, all: seq<Entry>, j: nat, k: nat)
    requires Grows(e) && j <= k <= |all|
    ensures |e.render(all[k..])| <= |e.render(all[j..])|
    decreases k - j
  {
    if j < k {
      assert all[j..][1..] == all[j + 1..];
      RenderedSuffix(e, all, j + 1, k);
    }
  }

  /**
   With a growing rendering, exactly when the best of the window is not the best of the session: the next
   older entry would still meet all three budgets.
   */
  lemma WindowExactly(b: Budget, e: Encoding, shown: seq<Entry>, all: seq<Entry>, h: History)
    requires Grows(e) && IsSuffix(shown, all) && Longest(b, e, shown, h)
    ensures LongestOf(b, e, all, h.entries) <==>
              !(CutShort(b, shown, all) && |e.render(all[|all| - |shown| - 1..])| <= b.maxBytes)
  {
    hide Longest, LongestOf, Chars, CutShort, Short, Grows;
    LongestLifts(b, e, shown, all, h);
    CutShortIs(b, shown, all);
    var n := |all| - |shown| - 1;
    assert n >= 0 ==> (Fits(b, e, all, n) <==> CutShort(b, shown, all) && |e.render(all[n..])| <= b.maxBytes);
    forall k | 0 <= k <= n && Fits(b, e, all, k) ensures Fits(b, e, all, n) {
      ShortIsMonotone(b, all, k, n);
      RenderedSuffix(e, all, k, n);
    }
  }

  // ---- when the window ends too early ----

  /** As the store lists them: different messages, newest first. */
  ghost predicate NewestFirst(ms: seq<Message>) {
    forall j, k :: 0 <= j < k < |ms| ==> ms[j].id != ms[k].id && ms[j].createdAt >= ms[k].createdAt
  }

  /** A text that was listed and deleted before its body was read. */
  ghost predicate Vanished(b: Budget, i: Input, m: Message) {
    Considered(b, i, m) && m.kind == TEXT && m.body.Missing?
  }

  lemma {:induction false} SomeEligible(b: Budget, e: Encoding, i: Input, ms: seq<Message>) returns (k: nat)
    requires Eligible(b, e, i, ms) != []
    ensures k < |ms| && Considered(b, i, ms[k])
  {
    if Considered(b, i, ms[0]) {
      k := 0;
    } else {
      var rest := SomeEligible(b, e, i, ms[1..]);
      k := rest + 1;
    }
  }

  /** Of recent messages that can be read and did not vanish, only the current one gives no entry. */
  lemma {:induction false} EntriesOfRecent(b: Budget, e: Encoding, i: Input, ms: seq<Message>)
    requires NewestFirst(ms) && Readable(b, i, ms)
    requires forall m :: m in ms ==> !Vanished(b, i, m) && (m.id != i.currentId ==> Considered(b, i, m))
    ensures |Eligible(b, e, i, ms)| + 1 >= |ms|
    ensures (forall m :: m in ms ==> m.id != i.currentId) ==> |Eligible(b, e, i, ms)| == |ms|
  {
    if ms != [] {
      assert ms == [ms[0]] + ms[1..] && ms[0] in ms;
      assert Readable(b, i, ms[1..]) by {
        assert forall k :: 0 <= k < |ms[1..]| ==> ms[1..][k] == ms[k + 1];
      }
      EntriesOfRecent(b, e, i, ms[1..]);
      if ms[0].id == i.currentId {
        forall m | m in ms[1..] ensures m.id != i.currentId {
          var k :| 0 <= k < |ms[1..]| && ms[1..][k] == m;
          assert ms[k + 1] == m;
        }
      }
    }
  }

  /** The window ends too early only if a text in it vanished while the history was read. */
  lemma CutShortNeedsVanished(b: Budget, e: Encoding, i: Input, ms: seq<Message>)
    requires NewestFirst(ms) && Readable(b, i, Window(b, ms))
    requires CutShort(b, Eligible(b, e, i, Window(b, ms)), Eligible(b, e, i, ms))
    ensures |ms| > b.maxMessages + 1
    ensures exists m :: m in Window(b, ms) && Vanished(b, i, m)
  {
    var n := |Window(b, ms)|;
    EligibleSplit(b, e, i, ms, n);
    var k := SomeEligible(b, e, i, ms[n..]);
    if forall m :: m in ms[..n] ==> !Vanished(b, i, m) {
      forall m | m in ms[..n] && m.id != i.currentId ensures Considered(b, i, m) {
        var j :| 0 <= j < n && ms[j] == m;
        assert ms[j].createdAt >= ms[n + k].createdAt;
      }
      EntriesOfRecent(b, e, i, ms[..n]);
    }
  }

  /** And it does happen: a budget of one message, the current message and a vanished one hide an older one. */
  lemma WindowCanEndEarly(e: Encoding)
    ensures var b, i := Budget(1, 10, 10, 0, 100), Input(true, "now", 3);
      var older := Message("a", TEXT, Found("hi"), 1);
      var ms := [Message("now", TEXT, Found("x"), 3), Message("gone", TEXT, Missing, 2), older];
      && NewestFirst(ms) && Readable(b, i, Window(b, ms))
      && Eligible(b, e, i, Window(b, ms)) == [] && Eligible(b, e, i, ms) == [EntryOf(b, e, older).value]
      && CutShort(b, [], Eligible(b, e, i, ms))
  {
    var b, i := Budget(1, 10, 10, 0, 100), Input(true, "now", 3);
    var older := Message("a", TEXT, Found("hi"), 1);
    var now, gone := Message("now", TEXT, Found("x"), 3), Message("gone", TEXT, Missing, 2);
    var ms := [now, gone, older];
    assert ms[1..] == [gone, older] && ms[1..][1..] == [older] && ms[1..][1..][1..] == [];
    assert Window(b, ms) == [now, gone] && [now, gone][1..] == [gone] && [gone][1..] == [];
    assert Eligible(b, e, i, [gone]) == Eligible(b, e, i, []) == [];
    assert Eligible(b, e, i, [older]) == Eligible(b, e, i, []) + [EntryOf(b, e, older).value];
    assert Eligible(b, e, i, [gone, older]) == Eligible(b, e, i, [older]);
  }
}
