/** The alert card of the dashboard (src/components/dashboard/alert-card.tsx):
  * alerts are shown highest priority first, by a stable sort of a copy of the
  * list whose comparator subtracts priority ranks; an empty list shows a
  * placeholder instead. */
module AlertCard {
  import opened Sequences

  datatype AlertType = Info | Warning | Error
  datatype Priority = Low | Medium | High
  datatype Alert = Alert(kind: AlertType, message: string, priority: Priority)

  /** The rank table of the comparator: high 3, medium 2, low 1. */
  function Rank(p: Priority): (n: int)
    ensures 1 <= n <= 3
    ensures p == High ==> n == 3
    ensures p == Low ==> n == 1
  {
    match p
    case High => 3
    case Medium => 2
    case Low => 1
  }

  /** The comparator handed to the sort: negative puts `a` first. */
  function Compare(a: Alert, b: Alert): (r: int)
    ensures r < 0 <==> Rank(a.priority) > Rank(b.priority)
    ensures r == 0 <==> a.priority == b.priority
  {
    Rank(b.priority) - Rank(a.priority)
  }

  /** The comparator is a consistent total preorder, which is what a stable
    * sort needs for its result to be determined. */
  lemma CompareConsistent(a: Alert, b: Alert, c: Alert)
    ensures Compare(a, b) == -Compare(b, a)
    ensures Compare(a, b) <= 0 && Compare(b, c) <= 0 ==> Compare(a, c) <= 0
  {
  }

  /** Highest priority first: no alert is directly followed by one of
    * higher rank (see SortedInOrder for all pairs). */
  predicate Sorted(s: seq<Alert>) {
    forall i | 0 <= i < |s| - 1 :: Rank(s[i].priority) >= Rank(s[i + 1].priority)
  }

  lemma {:induction false} SortedChain(s: seq<Alert>, i: int, j: int)
    requires Sorted(s) && 0 <= i <= j < |s|
    ensures Rank(s[i].priority) >= Rank(s[j].priority)
    decreases j - i
  {
    if i < j {
      SortedChain(s, i + 1, j);
    }
  }

  /** In a sorted list every high alert comes before every medium one and
    * every medium one before every low one. */
  lemma SortedInOrder(s: seq<Alert>)
    requires Sorted(s)
    ensures forall i, j | 0 <= i < j < |s| :: Rank(s[i].priority) >= Rank(s[j].priority)
  {
    forall i, j | 0 <= i < j < |s|
      ensures Rank(s[i].priority) >= Rank(s[j].priority)
    {
      SortedChain(s, i, j);
    }
  }

  /** The alerts of `s` that have priority `p`, in their order in `s`. */
  function WithPriority(s: seq<Alert>, p: Priority): (r: seq<Alert>)
    ensures |r| <= |s|
  {
    if |s| == 0 then []
    else Only(s[0], p) + WithPriority(s[1..], p)
  }

  /** `[x]` if `x` has priority `p`, otherwise nothing. */
  function Only(x: Alert, p: Priority): seq<Alert> {
    if x.priority == p then [x] else []
  }

  lemma {:induction false} WithPriorityAppend(s: seq<Alert>, t: seq<Alert>, p: Priority)
    ensures WithPriority(s + t, p) == WithPriority(s, p) + WithPriority(t, p)
    decreases |s|
  {
    if |s| == 0 {
      assert s + t == t;
    } else {
      assert (s + t)[1..] == s[1..] + t;
      WithPriorityAppend(s[1..], t, p);
      AppendAssociative(Only(s[0], p), WithPriority(s[1..], p), WithPriority(t, p));
    }
  }

  /** A sorted list whose head is outranked by `p` holds no alert of priority `p`. */
  lemma {:induction false} SortedBelow(s: seq<Alert>, p: Priority)
    requires Sorted(s) && |s| > 0 && Rank(s[0].priority) < Rank(p)
    ensures WithPriority(s, p) == []
    decreases |s|
  {
    if |s| > 1 {
      assert Rank(s[0].priority) >= Rank(s[1].priority);
      SortedBelow(s[1..], p);
    }
  }

  lemma SortedTail(s: seq<Alert>)
    requires Sorted(s) && |s| > 0
    ensures Sorted(s[1..])
  {
    assert forall i | 0 <= i < |s| - 1 :: s[1..][i] == s[i + 1];
  }

  /** One step of insertion: `x`, which comes after everything in `s` in the
    * input, goes after every element of `s` it does not outrank. */
  function Insert(x: Alert, s: seq<Alert>): (r: seq<Alert>)
    ensures |r| == |s| + 1
    ensures r[0] == x || (|s| > 0 && r[0] == s[0])
  {
    if |s| == 0 then [x]
    else if Compare(s[0], x) > 0 then [x] + s
    else [s[0]] + Insert(x, s[1..])
  }

  lemma {:induction false} InsertPermutes(x: Alert, s: seq<Alert>)
    ensures multiset(Insert(x, s)) == multiset(s) + multiset{x}
    decreases |s|
  {
    if |s| > 0 && Compare(s[0], x) <= 0 {
      InsertPermutes(x, s[1..]);
      assert s == [s[0]] + s[1..];
    }
  }

  lemma {:induction false} InsertSorted(x: Alert, s: seq<Alert>)
    requires Sorted(s)
    ensures Sorted(Insert(x, s))
    decreases |s|
  {
    if |s| > 0 && Compare(s[0], x) <= 0 {
      InsertSorted(x, s[1..]);
      var t := Insert(x, s[1..]);
      assert Insert(x, s) == [s[0]] + t;
      assert |s| > 1 ==> Rank(s[0].priority) >= Rank(s[1].priority);
      assert Rank(s[0].priority) >= Rank(t[0].priority);
    }
  }

  /** Inserting `x` into a sorted list appends it to the alerts of its own
    * priority and leaves the other priorities as they were. */
  lemma {:induction false} InsertWithPriority(x: Alert, s: seq<Alert>, p: Priority)
    requires Sorted(s)
    ensures WithPriority(Insert(x, s), p) == WithPriority(s, p) + Only(x, p)
    decreases |s|
  {
    if |s| == 0 {
      assert WithPriority([x], p) == Only(x, p) + WithPriority([], p);
    } else if Compare(s[0], x) > 0 {
      if x.priority == p {
        SortedBelow(s, p);
      }
      WithPriorityAppend([x], s, p);
      assert WithPriority([x], p) == Only(x, p) + WithPriority([], p);
    } else {
      var t := Insert(x, s[1..]);
      SortedTail(s);
      InsertWithPriority(x, s[1..], p);
      assert Insert(x, s) == [s[0]] + t;
      assert ([s[0]] + t)[1..] == t;
      AppendAssociative(Only(s[0], p), WithPriority(s[1..], p), Only(x, p));
    }
  }

  /** The array built by `[...alerts].sort(compare)`: a stable sort, written
    * as insertion of each alert in input order. The input is a value, so the
    * copy leaves it untouched by construction. */
  function SortAlerts(alerts: seq<Alert>): (r: seq<Alert>)
    ensures |r| == |alerts|
  {
    if |alerts| == 0 then []
    else
      var n := |alerts| - 1;
      Insert(alerts[n], SortAlerts(alerts[..n]))
  }

  /** The sorted copy holds exactly the input's alerts. */
  lemma {:induction false} SortAlertsPermutes(alerts: seq<Alert>)
    ensures multiset(SortAlerts(alerts)) == multiset(alerts)
    decreases |alerts|
  {
    if |alerts| > 0 {
      var n := |alerts| - 1;
      var prefix, last := alerts[..n], alerts[n];
      SortAlertsPermutes(prefix);
      InsertPermutes(last, SortAlerts(prefix));
      assert alerts == prefix + [last];
      assert multiset(alerts) == multiset(prefix) + multiset{last};
    }
  }

  /** Every high alert comes before every medium one, and every medium one
    * before every low one. */
  lemma {:induction false} SortAlertsSorted(alerts: seq<Alert>)
    ensures Sorted(SortAlerts(alerts))
    decreases |alerts|
  {
    if |alerts| > 0 {
      var n := |alerts| - 1;
      SortAlertsSorted(alerts[..n]);
      InsertSorted(alerts[n], SortAlerts(alerts[..n]));
    }
  }

  lemma WithPriorityLast(s: seq<Alert>, p: Priority)
    requires |s| > 0
    ensures WithPriority(s, p) == WithPriority(s[..|s| - 1], p) + Only(s[|s| - 1], p)
  {
    var n := |s| - 1;
    assert s == s[..n] + [s[n]];
    WithPriorityAppend(s[..n], [s[n]], p);
    assert WithPriority([s[n]], p) == Only(s[n], p) + WithPriority([], p);
  }

  /** Stability: alerts of equal priority keep their relative input order. */
  lemma {:induction false} SortAlertsStable(alerts: seq<Alert>, p: Priority)
    ensures WithPriority(SortAlerts(alerts), p) == WithPriority(alerts, p)
    decreases |alerts|
  {
    if |alerts| > 0 {
      var n := |alerts| - 1;
      SortAlertsStable(alerts[..n], p);
      SortAlertsSorted(alerts[..n]);
      InsertWithPriority(alerts[n], SortAlerts(alerts[..n]), p);
      WithPriorityLast(alerts, p);
    }
  }

  /** The high, then medium, then low alerts of `s`. */
  function Grouped(s: seq<Alert>): seq<Alert> {
    WithPriority(s, High) + WithPriority(s, Medium) + WithPriority(s, Low)
  }

  /** A sorted list is its high alerts, then its medium ones, then its low ones. */
  lemma {:induction false} SortedIsGrouped(s: seq<Alert>)
    requires Sorted(s)
    ensures s == Grouped(s)
    decreases |s|
  {
    if |s| > 0 {
      SortedIsGrouped(s[1..]);
      GroupedStep(s);
    }
  }

  /** Grouping a sorted list keeps its head in front of its grouped tail. */
  lemma GroupedStep(s: seq<Alert>)
    requires Sorted(s) && |s| > 0
    ensures Grouped(s) == [s[0]] + Grouped(s[1..])
  {
    var t := s[1..];
    var h, m, l := WithPriority(t, High), WithPriority(t, Medium), WithPriority(t, Low);
    assert |t| > 0 ==> Rank(t[0].priority) <= Rank(s[0].priority);
    match s[0].priority
    case High =>
      assert WithPriority(s, High) == [s[0]] + h;
      assert WithPriority(s, Medium) == m;
      assert WithPriority(s, Low) == l;
      GroupedHead(s[0], h, m, l);
    case Medium =>
      if |t| > 0 {
        SortedBelow(t, High);
      }
      assert WithPriority(s, High) == [];
      assert WithPriority(s, Medium) == [s[0]] + m;
      assert WithPriority(s, Low) == l;
      GroupedHead(s[0], [], m, l);
    case Low =>
      if |t| > 0 {
        SortedBelow(t, High);
        SortedBelow(t, Medium);
      }
      assert WithPriority(s, High) == [];
      assert WithPriority(s, Medium) == [];
      assert WithPriority(s, Low) == [s[0]] + l;
      GroupedHead(s[0], [], [], l);
  }

  lemma GroupedHead(x: Alert, h: seq<Alert>, m: seq<Alert>, l: seq<Alert>)
    ensures [x] + (h + m + l) == ([x] + h) + m + l
    ensures h == [] ==> [x] + (h + m + l) == h + ([x] + m) + l
    ensures h == [] && m == [] ==> [x] + (h + m + l) == h + m + ([x] + l)
  {
  }

  /** The sorted card lists the high alerts, then the medium, then the low,
    * each group in input order. */
  lemma SortAlertsGroups(alerts: seq<Alert>)
    ensures SortAlerts(alerts) == Grouped(alerts)
  {
    var r := SortAlerts(alerts);
    SortAlertsSorted(alerts);
    SortedIsGrouped(r);
    SortAlertsStable(alerts, High);
    SortAlertsStable(alerts, Medium);
    SortAlertsStable(alerts, Low);
  }

  const NoAlertsTitle := "알림"
  const NoAlertsDescription := "현재 알림이 없습니다."
  const ListTitle := "알림 및 권장사항"
  const ListDescription := "선택한 작물 조건과 센서 수신 로그"

  /** What the card renders: a placeholder card, or the sorted list. */
  datatype View =
    | Placeholder(title: string, description: string)
    | Listing(title: string, description: string, items: seq<Alert>)

  function Render(alerts: seq<Alert>): (v: View)
    ensures v.Placeholder? <==> |alerts| == 0
    ensures v.Placeholder? ==> v.description == NoAlertsDescription
    ensures v.Listing? ==> |v.items| == |alerts|
  {
    if |alerts| == 0 then Placeholder(NoAlertsTitle, NoAlertsDescription)
    else Listing(ListTitle, ListDescription, SortAlerts(alerts))
  }

  /** A listing shows exactly the given alerts, highest priority first. */
  lemma RenderSorted(alerts: seq<Alert>)
    requires |alerts| > 0
    ensures Render(alerts).Listing?
    ensures multiset(Render(alerts).items) == multiset(alerts)
    ensures Sorted(Render(alerts).items)
  {
    SortAlertsPermutes(alerts);
    SortAlertsSorted(alerts);
  }
}
