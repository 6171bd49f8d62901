/**
 * useChatPriority (src/hooks/useRealTimeFeatures.js:115-156): ranking chats by
 * priority weight, then by age, and the display style of a priority level.
 */
module ChatPriority {
  import opened JsText

  /** A chat as the ranker sees it; `timestamp` is the time in milliseconds `new Date(timestamp)` denotes. */
  datatype Chat = Chat(id: string, priority: string, timestamp: int)

  /** `priorityLevels[name]?.weight || 0`: urgent 4, high 3, medium 2, low 1, anything else 0. */
  function Weight(priority: string): (w: nat)
    ensures w <= 4
    ensures w > 0 <==> priority in ["urgent", "high", "medium", "low"]
  {
    if priority == "urgent" then 4
    else if priority == "high" then 3
    else if priority == "medium" then 2
    else if priority == "low" then 1
    else 0
  }

  /** The four levels outrank one another in order, and all of them outrank any other name. */
  lemma LevelsOutrankTheRest(other: string)
    requires other !in ["urgent", "high", "medium", "low"]
    ensures Weight("urgent") > Weight("high") > Weight("medium") > Weight("low") > Weight(other)
    ensures Weight(other) == 0
  {
  }

  /**
   * The comparator handed to `Array.prototype.sort`: negative when `a` goes
   * first. Higher weight first, then older timestamp first.
   */
  function Compare(a: Chat, b: Chat): int {
    var aPriority := Weight(a.priority);
    var bPriority := Weight(b.priority);
    if aPriority != bPriority then bPriority - aPriority else a.timestamp - b.timestamp
  }

  /** What the comparator cannot tell apart: same weight and same timestamp. */
  function Key(c: Chat): (int, int) {
    (Weight(c.priority), c.timestamp)
  }

  /** Place `x` before the first element the comparator does not rank strictly ahead of it. */
  function InsertChat(x: Chat, sorted: seq<Chat>): seq<Chat> {
    if sorted == [] then [x]
    else if Compare(sorted[0], x) < 0 then [sorted[0]] + InsertChat(x, sorted[1..])
    else [x] + sorted
  }

  /**
   * `sortChatsByPriority(chats)`: `[...chats].sort(comparator)`. The sort in the
   * engine is stable, so the result is the stable insertion sort of the copy.
   */
  function SortChatsByPriority(chats: seq<Chat>): seq<Chat> {
    if chats == [] then [] else InsertChat(chats[0], SortChatsByPriority(chats[1..]))
  }

  /** Every earlier element is ranked no later than every later one. */
  predicate Ranked(s: seq<Chat>) {
    forall i, j | 0 <= i < j < |s| :: Compare(s[i], s[j]) <= 0
  }

  /** The elements with key `k`, in order. */
  function WithKey(s: seq<Chat>, k: (int, int)): seq<Chat> {
    if s == [] then [] else (if Key(s[0]) == k then [s[0]] else []) + WithKey(s[1..], k)
  }

  lemma CompareTransitive(a: Chat, b: Chat, c: Chat)
    requires Compare(a, b) <= 0 && Compare(b, c) <= 0
    ensures Compare(a, c) <= 0
  {
  }

  lemma {:induction false} InsertChatContents(x: Chat, s: seq<Chat>)
    ensures multiset(InsertChat(x, s)) == multiset(s) + multiset{x}
  {
    if s != [] && Compare(s[0], x) < 0 {
      InsertChatContents(x, s[1..]);
      assert s == [s[0]] + s[1..];
    }
  }

  lemma {:induction false} InsertChatRanked(x: Chat, s: seq<Chat>)
    requires Ranked(s)
    ensures Ranked(InsertChat(x, s))
  {
    if s != [] {
      if Compare(s[0], x) < 0 {
        var rest := InsertChat(x, s[1..]);
        InsertChatRanked(x, s[1..]);
        InsertChatContents(x, s[1..]);
        var r := [s[0]] + rest;
        forall j | 0 < j < |r| ensures Compare(r[0], r[j]) <= 0 {
          assert r[j] == rest[j - 1];
          assert rest[j - 1] in multiset(rest);
          if r[j] != x {
            assert r[j] in multiset(s[1..]);
            var m :| 0 <= m < |s[1..]| && s[1..][m] == r[j];
            assert s[m + 1] == r[j];
          }
        }
      } else {
        var r := [x] + s;
        forall i, j | 0 <= i < j < |r| ensures Compare(r[i], r[j]) <= 0 {
          if i == 0 {
            assert Compare(x, s[0]) <= 0;
            if j > 1 { CompareTransitive(x, s[0], s[j - 1]); }
          } else {
            assert r[i] == s[i - 1] && r[j] == s[j - 1];
          }
        }
      }
    }
  }

  lemma {:induction false} InsertChatStable(x: Chat, s: seq<Chat>, k: (int, int))
    ensures WithKey(InsertChat(x, s), k) == (if Key(x) == k then [x] else []) + WithKey(s, k)
  {
    if s != [] {
      if Compare(s[0], x) < 0 {
        InsertChatStable(x, s[1..], k);
        assert Key(s[0]) != Key(x);
        assert ([s[0]] + InsertChat(x, s[1..]))[1..] == InsertChat(x, s[1..]);
      } else {
        assert ([x] + s)[1..] == s;
      }
    }
  }

  /**
   * The result of `sortChatsByPriority` is a rearrangement of its input, ranked
   * by the comparator, and stable: chats the comparator ties keep their input order.
   */
  lemma {:induction false} SortChatsByPriorityCorrect(chats: seq<Chat>)
    ensures Ranked(SortChatsByPriority(chats))
    ensures multiset(SortChatsByPriority(chats)) == multiset(chats)
    ensures forall k :: WithKey(SortChatsByPriority(chats), k) == WithKey(chats, k)
  {
    if chats != [] {
      SortChatsByPriorityCorrect(chats[1..]);
      InsertChatRanked(chats[0], SortChatsByPriority(chats[1..]));
      InsertChatContents(chats[0], SortChatsByPriority(chats[1..]));
      assert chats == [chats[0]] + chats[1..];
      forall k ensures WithKey(SortChatsByPriority(chats), k) == WithKey(chats, k) {
        InsertChatStable(chats[0], SortChatsByPriority(chats[1..]), k);
      }
    }
  }

  /** Ranked means: higher weight first, and within one weight the older timestamp first. */
  lemma RankedMeansPriorityThenAge(s: seq<Chat>, i: int, j: int)
    requires Ranked(s) && 0 <= i < j < |s|
    ensures Weight(s[i].priority) >= Weight(s[j].priority)
    ensures Weight(s[i].priority) == Weight(s[j].priority) ==> s[i].timestamp <= s[j].timestamp
  {
    assert Compare(s[i], s[j]) <= 0;
  }

  /** Priorities [low, urgent, medium, urgent] with distinct timestamps: both urgent chats first, oldest first, then medium, then low. */
  lemma SortExample()
    ensures SortChatsByPriority([Chat("a", "low", 1), Chat("b", "urgent", 4), Chat("c", "medium", 2), Chat("d", "urgent", 3)])
         == [Chat("d", "urgent", 3), Chat("b", "urgent", 4), Chat("c", "medium", 2), Chat("a", "low", 1)]
  {
    var a, b, c, d := Chat("a", "low", 1), Chat("b", "urgent", 4), Chat("c", "medium", 2), Chat("d", "urgent", 3);
    var input := [a, b, c, d];
    assert input[1..] == [b, c, d] && input[1..][1..] == [c, d] && input[1..][1..][1..] == [d];
    assert SortChatsByPriority([d]) == [d];
    assert SortChatsByPriority([c, d]) == InsertChat(c, [d]) == [d, c];
    assert InsertChat(b, [c]) == [b, c];
    assert SortChatsByPriority([b, c, d]) == InsertChat(b, [d, c]) == [d, b, c];
    assert InsertChat(a, [c]) == [c, a];
    assert InsertChat(a, [b, c]) == [b, c, a];
    assert SortChatsByPriority(input) == InsertChat(a, [d, b, c]) == [d, b, c, a];
  }

  // ---------------------------------------------------------------------------
  // getPriorityStyle
  // ---------------------------------------------------------------------------

  datatype Style = Style(color: string, backgroundColor: string)

  const UnknownStyle: Style := Style("gray", "#f3f4f6")

  /** The style of each colour name in `priorityLevels`; any other colour falls through to green. */
  function StyleOfColor(color: string): Style {
    Style(if color == "red" then "#dc2626" else if color == "orange" then "#ea580c" else if color == "yellow" then "#ca8a04" else "#16a34a",
          if color == "red" then "#fef2f2" else if color == "orange" then "#fff7ed" else if color == "yellow" then "#fefce8" else "#f0fdf4")
  }

  /** The colour name of each own entry of `priorityLevels`. */
  function LevelColor(priority: string): Option<string> {
    if priority == "urgent" then Some("red")
    else if priority == "high" then Some("orange")
    else if priority == "medium" then Some("yellow")
    else if priority == "low" then Some("green")
    else None
  }

  /**
   * Names an object literal inherits from `Object.prototype`: `priorityLevels[name]`
   * is a function or an object for these, so `!level` is false, while
   * `level.color` is `undefined`.
   */
  predicate IsInheritedName(name: string) {
    name in ["constructor", "toString", "toLocaleString", "valueOf", "hasOwnProperty", "isPrototypeOf",
             "propertyIsEnumerable", "__proto__", "__defineGetter__", "__defineSetter__",
             "__lookupGetter__", "__lookupSetter__"]
  }

  /** `getPriorityStyle(priority)` as written: an inherited name passes the `!level` test and gets the green style. */
  function PriorityStyleAsWritten(priority: string): Style {
    match LevelColor(priority)
    case Some(color) => StyleOfColor(color)
    case None => if IsInheritedName(priority) then StyleOfColor("") else UnknownStyle
  }

  /** `getPriorityStyle(priority)` as intended: only the four own levels have colours. */
  function PriorityStyle(priority: string): Style {
    match LevelColor(priority)
    case Some(color) => StyleOfColor(color)
    case None => UnknownStyle
  }

  /** Exactly the four levels have their own colour pairs; everything else is gray. */
  lemma PriorityStyleTable(priority: string)
    ensures priority == "urgent" <==> PriorityStyle(priority) == Style("#dc2626", "#fef2f2")
    ensures priority == "high" <==> PriorityStyle(priority) == Style("#ea580c", "#fff7ed")
    ensures priority == "medium" <==> PriorityStyle(priority) == Style("#ca8a04", "#fefce8")
    ensures priority == "low" <==> PriorityStyle(priority) == Style("#16a34a", "#f0fdf4")
    ensures Weight(priority) == 0 <==> PriorityStyle(priority) == UnknownStyle
  {
  }

  /** The style tells the weight: two priorities look the same exactly when they rank the same. */
  lemma PriorityStyleMatchesWeight(p: string, q: string)
    ensures PriorityStyle(p) == PriorityStyle(q) <==> Weight(p) == Weight(q)
  {
    PriorityStyleTable(p);
    PriorityStyleTable(q);
  }

  /** As written, "constructor" ranks with unknown priorities (weight 0) yet is styled like "low". */
  lemma InheritedNameStyledAsLow()
    ensures Weight("constructor") == 0
    ensures PriorityStyleAsWritten("constructor") == PriorityStyle("low")
    ensures PriorityStyle("constructor") == UnknownStyle
  {
  }

  /** The two agree on every name that is not inherited from `Object.prototype`. */
  lemma AsWrittenAgreesElsewhere(priority: string)
    requires !IsInheritedName(priority)
    ensures PriorityStyleAsWritten(priority) == PriorityStyle(priority)
  {
  }
}
