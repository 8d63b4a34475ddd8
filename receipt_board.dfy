/** The receipt page: the fetched receipts are sorted newest first and stored, filtered by
    the search box, and shown in five fixed date sections computed from the start of today.
    Instants are integer milliseconds of local time and calendar days are integer day
    numbers; `today` is the day number of the current day, which the page reads from the
    clock. */
module ReceiptBoard {
  import opened Wrappers
  import opened Seqs
  import opened Text

  /** A receipt record as the page receives it from the back end. `stamp` is the instant that
      parsing `date` gives (`new Date(receipt.date)`, `dayjs(receipt.date)`), time of day
      included, or `None` when `date` does not parse. */
  datatype Receipt = Receipt(
    senderName: Option<string>,
    senderEmail: Option<string>,
    date: string,
    stamp: Option<int>,
    total: string,
    snippet: string,
    link: string)

  const MsPerDay := 86400000

  /** The instant day `k` starts: `startOf('day')`. */
  function Midnight(k: int): int
  {
    k * MsPerDay
  }

  /** The calendar day the instant `t` falls on. */
  function DayOf(t: int): (k: int)
    ensures Midnight(k) <= t < Midnight(k + 1)
  {
    t / MsPerDay
  }

  /** Comparing an instant with the start of a day is comparing the day it falls on with
      that day. */
  lemma MidnightBounds(t: int, k: int)
    ensures Midnight(k) <= t <==> k <= DayOf(t)
    ensures t < Midnight(k) <==> DayOf(t) < k
  {
    var d := DayOf(t);
    if k <= d {
      assert Midnight(k) <= Midnight(d);
    } else {
      assert Midnight(d + 1) <= Midnight(k);
    }
  }

  /** The calendar day of a receipt, when its date parses. */
  function Day(r: Receipt): Option<int>
  {
    if r.stamp.Some? then Some(DayOf(r.stamp.value)) else None
  }

  // ---------------------------------------------------------------------------------------
  // Sorting the fetched list, newest first

  /** Every receipt has a valid date and the instants never increase along the list. */
  predicate NewestFirst(s: seq<Receipt>)
  {
    (forall i :: 0 <= i < |s| ==> s[i].stamp.Some?)
    && forall i, j :: 0 <= i < j < |s| ==> s[j].stamp.value <= s[i].stamp.value
  }

  function OnStamp(k: int): Receipt -> bool
  {
    (r: Receipt) => r.stamp == Some(k)
  }

  /** The receipts of `s` dated at the instant `k`, in their order in `s`. */
  function WithStamp(s: seq<Receipt>, k: int): seq<Receipt>
  {
    Filter(OnStamp(k), s)
  }

  /** `s` and `t` hold the same receipts at every instant, in the same relative order: what a
      stable sort keyed on the instant leaves unchanged. */
  ghost predicate SameStampOrder(s: seq<Receipt>, t: seq<Receipt>)
  {
    forall k :: WithStamp(s, k) == WithStamp(t, k)
  }

  lemma FilterPair(p: Receipt -> bool, x: Receipt, y: Receipt)
    ensures Filter(p, [x, y]) == (if p(x) then [x] else []) + (if p(y) then [y] else [])
  {
    assert [x, y][1..] == [y];
    assert [y][1..] == [];
  }

  /** Exchanging two neighbours with different instants keeps the order at every instant. */
  lemma SwapKeepsStampOrder(s: seq<Receipt>, j: int)
    requires 0 < j < |s| && s[j - 1].stamp != s[j].stamp
    ensures SameStampOrder(s[j - 1 := s[j]][j := s[j - 1]], s)
  {
    var t := s[j - 1 := s[j]][j := s[j - 1]];
    var pre, post := s[..j - 1], s[j + 1..];
    assert s == pre + [s[j - 1], s[j]] + post;
    assert t == pre + [s[j], s[j - 1]] + post;
    forall k ensures WithStamp(t, k) == WithStamp(s, k) {
      FilterAppend(OnStamp(k), pre + [s[j - 1], s[j]], post);
      FilterAppend(OnStamp(k), pre, [s[j - 1], s[j]]);
      FilterAppend(OnStamp(k), pre + [s[j], s[j - 1]], post);
      FilterAppend(OnStamp(k), pre, [s[j], s[j - 1]]);
      FilterPair(OnStamp(k), s[j - 1], s[j]);
      FilterPair(OnStamp(k), s[j], s[j - 1]);
    }
  }

  lemma SameStampOrderTransitive(s: seq<Receipt>, t: seq<Receipt>, u: seq<Receipt>)
    requires SameStampOrder(s, t) && SameStampOrder(t, u)
    ensures SameStampOrder(s, u)
  {
  }

  /** Lists with the same receipts, in the same order, at every instant are permutations of
      each other. */
  lemma SameStampOrderIsPermutation(s: seq<Receipt>, t: seq<Receipt>)
    requires forall i :: 0 <= i < |s| ==> s[i].stamp.Some?
    requires forall i :: 0 <= i < |t| ==> t[i].stamp.Some?
    requires SameStampOrder(s, t)
    ensures multiset(s) == multiset(t)
  {
    forall x ensures multiset(s)[x] == multiset(t)[x] {
      if x.stamp.Some? {
        FilterCount(OnStamp(x.stamp.value), s, x);
        FilterCount(OnStamp(x.stamp.value), t, x);
        assert WithStamp(s, x.stamp.value) == WithStamp(t, x.stamp.value);
      } else {
        assert x !in s && x !in t;
      }
    }
  }

  /** Exchanges the neighbours at `j - 1` and `j`, which have different instants. */
  method SwapNeighbours(a: array<Receipt>, j: int)
    requires 0 < j < a.Length && a[j - 1].stamp != a[j].stamp
    modifies a
    ensures a[..] == old(a[..])[j - 1 := old(a[j])][j := old(a[j - 1])]
    ensures multiset(a[..]) == multiset(old(a[..]))
    ensures SameStampOrder(a[..], old(a[..]))
  {
    SwapKeepsStampOrder(a[..], j);
    a[j - 1], a[j] := a[j], a[j - 1];
    assert a[..] == old(a[..])[j - 1 := old(a[j])][j := old(a[j - 1])];
  }

  /** Midway through an insertion pass over the first `i + 1` receipts of `s`: the receipt
      being inserted is at `j`, the others are newest first, and those after it are strictly
      older than it. */
  ghost predicate Inserting(s: seq<Receipt>, i: int, j: int)
  {
    && 0 <= j <= i < |s|
    && (forall k :: 0 <= k < |s| ==> s[k].stamp.Some?)
    && (forall p, q :: 0 <= p < q <= i && p != j && q != j ==> s[q].stamp.value <= s[p].stamp.value)
    && (forall q :: j < q <= i ==> s[q].stamp.value < s[j].stamp.value)
  }

  /** Moving the inserted receipt one place left, past a strictly older one. */
  lemma InsertingStep(s: seq<Receipt>, i: int, j: int)
    requires Inserting(s, i, j) && 0 < j && s[j - 1].stamp.value < s[j].stamp.value
    ensures Inserting(s[j - 1 := s[j]][j := s[j - 1]], i, j - 1)
  {
  }

  /** The pass stops once the receipt to the left is not strictly older. */
  lemma InsertingDone(s: seq<Receipt>, i: int, j: int)
    requires Inserting(s, i, j) && (j == 0 || s[j].stamp.value <= s[j - 1].stamp.value)
    ensures forall p, q :: 0 <= p < q <= i ==> s[q].stamp.value <= s[p].stamp.value
  {
  }

  /** `response.data.sort((a, b) => new Date(b.date) - new Date(a.date))`: a stable sort,
      newest first, in place. An insertion sort that moves a receipt left only past strictly
      older ones, so receipts of the same instant keep their order. */
  method SortNewestFirst(a: array<Receipt>)
    requires forall i :: 0 <= i < a.Length ==> a[i].stamp.Some?
    modifies a
    ensures NewestFirst(a[..])
    ensures multiset(a[..]) == multiset(old(a[..]))
    ensures SameStampOrder(a[..], old(a[..]))
  {
    var i := 0;
    while i < a.Length
      invariant 0 <= i <= a.Length
      invariant forall k :: 0 <= k < a.Length ==> a[k].stamp.Some?
      invariant forall p, q :: 0 <= p < q < i ==> a[q].stamp.value <= a[p].stamp.value
      invariant SameStampOrder(a[..], old(a[..]))
    {
      ghost var before := a[..];
      InsertNewest(a, i);
      SameStampOrderTransitive(a[..], before, old(a[..]));
      i := i + 1;
    }
    SameStampOrderIsPermutation(a[..], old(a[..]));
  }

  /** One pass of the insertion sort: moves `a[i]` left past the strictly older receipts, so
      that the first `i + 1` receipts end up newest first. */
  method InsertNewest(a: array<Receipt>, i: int)
    requires 0 <= i < a.Length
    requires forall k :: 0 <= k < a.Length ==> a[k].stamp.Some?
    requires forall p, q :: 0 <= p < q < i ==> a[q].stamp.value <= a[p].stamp.value
    modifies a
    ensures forall k :: 0 <= k < a.Length ==> a[k].stamp.Some?
    ensures forall p, q :: 0 <= p < q <= i ==> a[q].stamp.value <= a[p].stamp.value
    ensures SameStampOrder(a[..], old(a[..]))
    ensures a[i + 1..] == old(a[i + 1..])
  {
    var j := i;
    while j > 0 && a[j - 1].stamp.value < a[j].stamp.value
      invariant Inserting(a[..], i, j)
      invariant SameStampOrder(a[..], old(a[..]))
      invariant a[i + 1..] == old(a[i + 1..])
    {
      ghost var before := a[..];
      InsertingStep(before, i, j);
      SwapNeighbours(a, j);
      SameStampOrderTransitive(a[..], before, old(a[..]));
      j := j - 1;
    }
    InsertingDone(a[..], i, j);
  }

  lemma WithStampCons(s: seq<Receipt>, k: int)
    requires s != []
    ensures WithStamp(s, k) == if s[0].stamp == Some(k) then [s[0]] + WithStamp(s[1..], k) else WithStamp(s[1..], k)
  {
  }

  /** The first receipt of a newest-first list is one of the newest. */
  lemma FirstIsNewest(x: seq<Receipt>, z: Receipt)
    requires NewestFirst(x) && z in x
    ensures z.stamp.Some? && z.stamp.value <= x[0].stamp.value
  {
    var i :| 0 <= i < |x| && x[i] == z;
  }

  /** With the same receipts at every instant, a dated receipt of one list is in the other. */
  lemma SameStampOrderMember(x: seq<Receipt>, y: seq<Receipt>, z: Receipt)
    requires SameStampOrder(x, y) && z in x && z.stamp.Some?
    ensures z in y
  {
    var k := z.stamp.value;
    FilterMember(OnStamp(k), x, z);
    assert WithStamp(x, k) == WithStamp(y, k);
    FilterMember(OnStamp(k), y, z);
  }

  /** Two newest-first lists with the same order at every instant start with the same
      receipt, and what follows it again has the same order at every instant. */
  lemma SameHead(x: seq<Receipt>, y: seq<Receipt>)
    requires NewestFirst(x) && NewestFirst(y) && SameStampOrder(x, y) && x != [] && y != []
    ensures x[0] == y[0] && SameStampOrder(x[1..], y[1..])
  {
    SameStampOrderMember(y, x, y[0]);
    FirstIsNewest(x, y[0]);
    SameStampOrderMember(x, y, x[0]);
    FirstIsNewest(y, x[0]);
    var k := x[0].stamp.value;
    WithStampCons(x, k);
    WithStampCons(y, k);
    assert WithStamp(x, k) == WithStamp(y, k);
    assert WithStamp(x, k)[0] == x[0] && WithStamp(y, k)[0] == y[0];
    forall j ensures WithStamp(x[1..], j) == WithStamp(y[1..], j) {
      WithStampCons(x, j);
      WithStampCons(y, j);
      assert WithStamp(x, j) == WithStamp(y, j);
      if x[0].stamp == Some(j) {
        assert WithStamp(x[1..], j) == WithStamp(x, j)[1..];
        assert WithStamp(y[1..], j) == WithStamp(y, j)[1..];
      }
    }
  }

  lemma NewestFirstTail(x: seq<Receipt>)
    requires NewestFirst(x) && x != []
    ensures NewestFirst(x[1..])
  {
    forall i, j | 0 <= i < j < |x[1..]| ensures x[1..][j].stamp.value <= x[1..][i].stamp.value {
      assert x[1..][i] == x[i + 1] && x[1..][j] == x[j + 1];
    }
  }

  /** Sorting newest first while keeping the order at each instant has exactly one outcome,
      so the insertion sort above gives the same list as any stable sort with that comparator. */
  lemma {:induction false} StableSortIsUnique(x: seq<Receipt>, y: seq<Receipt>)
    requires NewestFirst(x) && NewestFirst(y) && SameStampOrder(x, y)
    ensures x == y
    decreases |x|
  {
    if x == [] && y != [] {
      SameStampOrderMember(y, x, y[0]);
    } else if x != [] && y == [] {
      SameStampOrderMember(x, y, x[0]);
    } else if x != [] {
      SameHead(x, y);
      NewestFirstTail(x);
      NewestFirstTail(y);
      StableSortIsUnique(x[1..], y[1..]);
      assert x == [x[0]] + x[1..];
      assert y == [y[0]] + y[1..];
    }
  }

  /** Keeping some of the receipts of a newest-first list keeps it newest first. */
  lemma {:induction false} FilterKeepsNewestFirst(p: Receipt -> bool, s: seq<Receipt>)
    requires NewestFirst(s)
    ensures NewestFirst(Filter(p, s))
  {
    if s != [] {
      NewestFirstTail(s);
      FilterKeepsNewestFirst(p, s[1..]);
      if p(s[0]) {
        var rest := Filter(p, s[1..]);
        forall j | 0 <= j < |rest| ensures rest[j].stamp.value <= s[0].stamp.value {
          FilterMember(p, s[1..], rest[j]);
          var m :| 0 <= m < |s[1..]| && s[1..][m] == rest[j];
          assert s[1..][m] == s[m + 1];
        }
        var r := [s[0]] + rest;
        forall i, j | 0 <= i < j < |r| ensures r[j].stamp.value <= r[i].stamp.value {
          if i > 0 {
            assert r[i] == rest[i - 1] && r[j] == rest[j - 1];
          }
        }
      }
    }
  }

  // ---------------------------------------------------------------------------------------
  // Search

  /** The search box stores its input lower-cased. */
  function SearchQuery(input: string): string
  {
    Lower(input)
  }

  /** A receipt survives the search when its lower-cased sender name contains the query or
      its date string, as it is, contains the query. A missing sender name fails the first
      test and leaves the decision to the date. */
  predicate Matches(r: Receipt, query: string)
  {
    (r.senderName.Some? && Contains(Lower(r.senderName.value), query)) || Contains(r.date, query)
  }

  function MatchesQuery(query: string): Receipt -> bool
  {
    (r: Receipt) => Matches(r, query)
  }

  /** `receipts.filter(...)` with the stored query. */
  function Search(receipts: seq<Receipt>, query: string): (r: seq<Receipt>)
    ensures forall x :: x in r <==> x in receipts && Matches(x, query)
    ensures IsSubseq(r, receipts)
    ensures forall x :: multiset(r)[x] == if Matches(x, query) then multiset(receipts)[x] else 0
  {
    FilterIsSubseq(MatchesQuery(query), receipts);
    forall x ensures multiset(Filter(MatchesQuery(query), receipts))[x]
                     == if Matches(x, query) then multiset(receipts)[x] else 0 {
      FilterCount(MatchesQuery(query), receipts, x);
    }
    assert forall x :: x in Filter(MatchesQuery(query), receipts) <==> x in receipts && Matches(x, query) by {
      forall x ensures x in Filter(MatchesQuery(query), receipts) <==> x in receipts && Matches(x, query) {
        FilterMember(MatchesQuery(query), receipts, x);
      }
    }
    Filter(MatchesQuery(query), receipts)
  }

  /** With an empty search box nothing is filtered out. */
  lemma EmptyQueryKeepsAll(receipts: seq<Receipt>)
    ensures Search(receipts, SearchQuery("")) == receipts
  {
    assert SearchQuery("") == "";
    forall i | 0 <= i < |receipts| ensures MatchesQuery("")(receipts[i]) {
      assert "" <= receipts[i].date;
    }
    FilterAll(MatchesQuery(""), receipts);
  }

  /** The sender test is case-insensitive: typing the name in any case finds the receipt. */
  lemma SenderSearchIgnoresCase(r: Receipt, input: string)
    requires r.senderName.Some? && Contains(Lower(r.senderName.value), Lower(input))
    ensures Matches(r, SearchQuery(input))
  {
  }

  /** The query is lower-cased but the date is not: a receipt without a sender name dated
      "18 Oct 2024" is found by typing "18" but not by typing "Oct", whatever instant the
      date parses to. */
  lemma DateSearchIsCaseSensitive(stamp: Option<int>)
    ensures var r := Receipt(None, None, "18 Oct 2024", stamp, "12.00", "", "");
            Matches(r, SearchQuery("18")) && !Matches(r, SearchQuery("Oct"))
  {
    var date := "18 Oct 2024";
    assert SearchQuery("18") == "18";
    assert "18" <= date;
    assert SearchQuery("Oct") == "oct";
    assert 'o' !in date;
    MissingFirstChar(date, "oct");
  }

  // ---------------------------------------------------------------------------------------
  // Date sections

  datatype Section = Today | Yesterday | Previous7Days | Previous30Days | OlderThan30Days

  /** The section headings, in the order the page shows them. */
  const SectionNames: seq<string> :=
    ["Today", "Yesterday", "Previous 7 Days", "Previous 30 Days", "Older than 30 Days"]

  /** Membership of a receipt dated `stamp` in `section`, tested as the page tests it against
      the starts of today, yesterday, seven days ago and thirty days ago: `isSame(…, 'day')`,
      a comparison of calendar days, for the first two sections, the half-open
      `isBetween(…, '[)')` of instants for the next two, `isBefore` for the last. A date that
      does not parse compares false and is in no section. */
  predicate InSection(section: Section, stamp: Option<int>, today: int)
  {
    stamp.Some? &&
    match section
    case Today => DayOf(stamp.value) == today
    case Yesterday => DayOf(stamp.value) == today - 1
    case Previous7Days => Midnight(today - 7) <= stamp.value < Midnight(today)
    case Previous30Days => Midnight(today - 30) <= stamp.value < Midnight(today - 7)
    case OlderThan30Days => stamp.value < Midnight(today - 30)
  }

  function InSectionOn(section: Section, today: int): Receipt -> bool
  {
    (r: Receipt) => InSection(section, r.stamp, today)
  }

  /** The five tests read as ranges of calendar days: today, today - 1,
      [today - 7, today), [today - 30, today - 7) and before today - 30. */
  lemma SectionDays(t: int, today: int)
    ensures InSection(Today, Some(t), today) <==> DayOf(t) == today
    ensures InSection(Yesterday, Some(t), today) <==> DayOf(t) == today - 1
    ensures InSection(Previous7Days, Some(t), today) <==> today - 7 <= DayOf(t) < today
    ensures InSection(Previous30Days, Some(t), today) <==> today - 30 <= DayOf(t) < today - 7
    ensures InSection(OlderThan30Days, Some(t), today) <==> DayOf(t) < today - 30
  {
    MidnightBounds(t, today);
    MidnightBounds(t, today - 7);
    MidnightBounds(t, today - 30);
  }

  /** The chain of name tests in `filterReceiptsBySection`. */
  function SectionNamed(name: string): Option<Section>
  {
    if name == "Today" then Some(Today)
    else if name == "Yesterday" then Some(Yesterday)
    else if name == "Previous 7 Days" then Some(Previous7Days)
    else if name == "Previous 30 Days" then Some(Previous30Days)
    else if name == "Older than 30 Days" then Some(OlderThan30Days)
    else None
  }

  /** `filterReceiptsBySection(name)`: the filtered receipts of the named section, in order;
      an unknown name gives the empty list. */
  function FilterReceiptsBySection(name: string, filtered: seq<Receipt>, today: int): seq<Receipt>
  {
    match SectionNamed(name)
    case Some(section) => Filter(InSectionOn(section, today), filtered)
    case None => []
  }

  /** `sections.map(...)`: every heading with its receipts, empty sections included. */
  function Board(filtered: seq<Receipt>, today: int): seq<(string, seq<Receipt>)>
  {
    seq(|SectionNames|, i requires 0 <= i < |SectionNames| =>
      (SectionNames[i], FilterReceiptsBySection(SectionNames[i], filtered, today)))
  }

  /** The receipts listed under each of the five headings, by membership. */
  lemma SectionMembers(filtered: seq<Receipt>, today: int, r: Receipt)
    ensures r in FilterReceiptsBySection("Today", filtered, today)
            <==> r in filtered && InSection(Today, r.stamp, today)
    ensures r in FilterReceiptsBySection("Yesterday", filtered, today)
            <==> r in filtered && InSection(Yesterday, r.stamp, today)
    ensures r in FilterReceiptsBySection("Previous 7 Days", filtered, today)
            <==> r in filtered && InSection(Previous7Days, r.stamp, today)
    ensures r in FilterReceiptsBySection("Previous 30 Days", filtered, today)
            <==> r in filtered && InSection(Previous30Days, r.stamp, today)
    ensures r in FilterReceiptsBySection("Older than 30 Days", filtered, today)
            <==> r in filtered && InSection(OlderThan30Days, r.stamp, today)
  {
    FilterMember(InSectionOn(Today, today), filtered, r);
    FilterMember(InSectionOn(Yesterday, today), filtered, r);
    FilterMember(InSectionOn(Previous7Days, today), filtered, r);
    FilterMember(InSectionOn(Previous30Days, today), filtered, r);
    FilterMember(InSectionOn(OlderThan30Days, today), filtered, r);
  }

  /** Section membership of a receipt, by its calendar day. */
  lemma SectionMembersByDay(filtered: seq<Receipt>, today: int, r: Receipt)
    requires r.stamp.Some?
    ensures var d := DayOf(r.stamp.value);
            && (r in FilterReceiptsBySection("Today", filtered, today) <==> r in filtered && d == today)
            && (r in FilterReceiptsBySection("Yesterday", filtered, today) <==> r in filtered && d == today - 1)
            && (r in FilterReceiptsBySection("Previous 7 Days", filtered, today)
                <==> r in filtered && today - 7 <= d < today)
            && (r in FilterReceiptsBySection("Previous 30 Days", filtered, today)
                <==> r in filtered && today - 30 <= d < today - 7)
            && (r in FilterReceiptsBySection("Older than 30 Days", filtered, today)
                <==> r in filtered && d < today - 30)
  {
    SectionMembers(filtered, today, r);
    SectionDays(r.stamp.value, today);
  }

  /** The entries of the board, heading by heading. */
  lemma BoardEntries(filtered: seq<Receipt>, today: int)
    ensures |Board(filtered, today)| == 5
    ensures Board(filtered, today)[0] == ("Today", FilterReceiptsBySection("Today", filtered, today))
    ensures Board(filtered, today)[1] == ("Yesterday", FilterReceiptsBySection("Yesterday", filtered, today))
    ensures Board(filtered, today)[2] == ("Previous 7 Days", FilterReceiptsBySection("Previous 7 Days", filtered, today))
    ensures Board(filtered, today)[3] == ("Previous 30 Days", FilterReceiptsBySection("Previous 30 Days", filtered, today))
    ensures Board(filtered, today)[4] == ("Older than 30 Days", FilterReceiptsBySection("Older than 30 Days", filtered, today))
  {
  }

  /** The five headings come out in their fixed order whatever the receipts are. */
  lemma BoardShape(filtered: seq<Receipt>, today: int)
    ensures |Board(filtered, today)| == 5
    ensures forall i :: 0 <= i < 5 ==> Board(filtered, today)[i].0 == SectionNames[i]
    ensures Board([], today) == seq(5, i requires 0 <= i < 5 => (SectionNames[i], []))
  {
  }

  /** A name outside the five headings yields no receipts. */
  lemma UnknownSectionIsEmpty(name: string, filtered: seq<Receipt>, today: int)
    requires name !in SectionNames
    ensures FilterReceiptsBySection(name, filtered, today) == []
  {
  }

  /** `Today` holds exactly the filtered receipts dated today, at any time of the day, and
      those are in no other section. */
  lemma TodaySection(filtered: seq<Receipt>, today: int, r: Receipt)
    ensures r in FilterReceiptsBySection("Today", filtered, today) <==> r in filtered && Day(r) == Some(today)
    ensures Day(r) == Some(today) ==>
              && r !in FilterReceiptsBySection("Yesterday", filtered, today)
              && r !in FilterReceiptsBySection("Previous 7 Days", filtered, today)
              && r !in FilterReceiptsBySection("Previous 30 Days", filtered, today)
              && r !in FilterReceiptsBySection("Older than 30 Days", filtered, today)
  {
    SectionMembers(filtered, today, r);
    if r.stamp.Some? {
      SectionMembersByDay(filtered, today, r);
    }
  }

  /** A receipt dated yesterday is listed twice: under `Yesterday` and under
      `Previous 7 Days`, whose range [today - 7, today) also covers yesterday. */
  lemma YesterdayIsListedTwice(filtered: seq<Receipt>, today: int, r: Receipt)
    requires r in filtered && Day(r) == Some(today - 1)
    ensures r in FilterReceiptsBySection("Yesterday", filtered, today)
    ensures r in FilterReceiptsBySection("Previous 7 Days", filtered, today)
    ensures r !in FilterReceiptsBySection("Today", filtered, today)
    ensures r !in FilterReceiptsBySection("Previous 30 Days", filtered, today)
    ensures r !in FilterReceiptsBySection("Older than 30 Days", filtered, today)
  {
    SectionMembersByDay(filtered, today, r);
  }

  /** Any time seven days back is in `Previous 7 Days`, not in `Previous 30 Days`: the window
      starts at midnight of that day. */
  lemma SevenDaysBack(filtered: seq<Receipt>, today: int, r: Receipt)
    requires r in filtered && Day(r) == Some(today - 7)
    ensures r in FilterReceiptsBySection("Previous 7 Days", filtered, today)
    ensures r !in FilterReceiptsBySection("Previous 30 Days", filtered, today)
  {
    SectionMembersByDay(filtered, today, r);
  }

  /** Any time thirty days back is in `Previous 30 Days`, not in `Older than 30 Days`. */
  lemma ThirtyDaysBack(filtered: seq<Receipt>, today: int, r: Receipt)
    requires r in filtered && Day(r) == Some(today - 30)
    ensures r in FilterReceiptsBySection("Previous 30 Days", filtered, today)
    ensures r !in FilterReceiptsBySection("Older than 30 Days", filtered, today)
  {
    SectionMembersByDay(filtered, today, r);
  }

  /** The three rolling windows do not overlap. */
  lemma RollingWindowsDisjoint(filtered: seq<Receipt>, today: int, r: Receipt)
    ensures !(r in FilterReceiptsBySection("Previous 7 Days", filtered, today)
              && r in FilterReceiptsBySection("Previous 30 Days", filtered, today))
    ensures !(r in FilterReceiptsBySection("Previous 7 Days", filtered, today)
              && r in FilterReceiptsBySection("Older than 30 Days", filtered, today))
    ensures !(r in FilterReceiptsBySection("Previous 30 Days", filtered, today)
              && r in FilterReceiptsBySection("Older than 30 Days", filtered, today))
  {
    SectionMembers(filtered, today, r);
  }

  /** A receipt lands in some section exactly when it survived the search, its date parses and
      it is dated before the start of tomorrow; so one dated in the future, or not parseable,
      is never shown. */
  lemma ShownIff(filtered: seq<Receipt>, today: int, r: Receipt)
    ensures (exists i :: 0 <= i < 5 && r in Board(filtered, today)[i].1)
            <==> r in filtered && r.stamp.Some? && r.stamp.value < Midnight(today + 1)
  {
    SectionMembers(filtered, today, r);
    BoardEntries(filtered, today);
    if r.stamp.Some? {
      SectionMembersByDay(filtered, today, r);
      MidnightBounds(r.stamp.value, today + 1);
      if r in filtered && r.stamp.value < Midnight(today + 1) {
        var d := DayOf(r.stamp.value);
        if d == today {
          assert r in Board(filtered, today)[0].1;
        } else if today - 7 <= d {
          assert r in Board(filtered, today)[2].1;
        } else if today - 30 <= d {
          assert r in Board(filtered, today)[3].1;
        } else {
          assert r in Board(filtered, today)[4].1;
        }
      }
    }
  }

  /** Apart from the doubly listed yesterday, a shown receipt is in exactly one of `Today`,
      `Previous 7 Days`, `Previous 30 Days` and `Older than 30 Days`. */
  lemma PlacedOnceOutsideYesterday(filtered: seq<Receipt>, today: int, r: Receipt)
    requires r in filtered && r.stamp.Some? && r.stamp.value < Midnight(today + 1)
    ensures var b := Board(filtered, today);
            (if r in b[0].1 then 1 else 0) + (if r in b[2].1 then 1 else 0)
            + (if r in b[3].1 then 1 else 0) + (if r in b[4].1 then 1 else 0) == 1
  {
    SectionMembersByDay(filtered, today, r);
    MidnightBounds(r.stamp.value, today + 1);
    BoardEntries(filtered, today);
  }

  /** Each section lists its receipts in the order of the stored list: it is a subsequence of
      it, and newest first when the stored list is. */
  lemma SectionsFollowStoredOrder(stored: seq<Receipt>, query: string, today: int, i: int)
    requires 0 <= i < 5
    ensures IsSubseq(Board(Search(stored, query), today)[i].1, stored)
    ensures NewestFirst(stored) ==> NewestFirst(Board(Search(stored, query), today)[i].1)
  {
    var filtered := Search(stored, query);
    BoardEntries(filtered, today);
    var section := [Today, Yesterday, Previous7Days, Previous30Days, OlderThan30Days][i];
    assert Board(filtered, today)[i].1 == Filter(InSectionOn(section, today), filtered);
    FilterIsSubseq(InSectionOn(section, today), filtered);
    SubseqTransitive(Board(filtered, today)[i].1, filtered, stored);
    if NewestFirst(stored) {
      FilterKeepsNewestFirst(MatchesQuery(query), stored);
      FilterKeepsNewestFirst(InSectionOn(section, today), filtered);
    }
  }

  // ---------------------------------------------------------------------------------------
  // The page's state

  /** The page component's state: the stored receipts and the stored (lower-cased) query. */
  class ReceiptView {
    var receipts: seq<Receipt>
    var searchQuery: string

    /** The stored list is always newest first. */
    ghost predicate Valid()
      reads this
    {
      NewestFirst(receipts)
    }

    constructor ()
      ensures Valid() && receipts == [] && searchQuery == ""
    {
      receipts := [];
      searchQuery := "";
    }

    /** `handleSearch`: the typed text, lower-cased, becomes the query. */
    method HandleSearch(input: string)
      requires Valid()
      modifies this
      ensures Valid() && searchQuery == SearchQuery(input) && receipts == old(receipts)
    {
      searchQuery := SearchQuery(input);
    }

    /** The fetch callback: the response array is sorted in place and stored; when the fetch
        fails (`None`) nothing changes. */
    method ReceiveReceipts(response: Option<array<Receipt>>)
      requires Valid()
      requires response.Some? ==> forall i :: 0 <= i < response.value.Length ==> response.value[i].stamp.Some?
      modifies this, if response.Some? then {response.value} else {}
      ensures Valid() && searchQuery == old(searchQuery)
      ensures response.None? ==> receipts == old(receipts)
      ensures response.Some? ==> receipts == response.value[..]
                                 && multiset(receipts) == multiset(old(response.value[..]))
                                 && SameStampOrder(receipts, old(response.value[..]))
    {
      if response.Some? {
        SortNewestFirst(response.value);
        receipts := response.value[..];
      }
    }

    /** What the page renders for the day `today`. */
    function Sections(today: int): seq<(string, seq<Receipt>)>
      reads this
    {
      Board(Search(receipts, searchQuery), today)
    }
  }

  /** Every section the page renders is newest first. */
  lemma RenderedSectionsNewestFirst(view: ReceiptView, today: int)
    requires view.Valid()
    ensures forall i :: 0 <= i < 5 ==> NewestFirst(view.Sections(today)[i].1)
  {
    forall i | 0 <= i < 5 ensures NewestFirst(view.Sections(today)[i].1) {
      SectionsFollowStoredOrder(view.receipts, view.searchQuery, today, i);
    }
  }
}
