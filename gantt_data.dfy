/** The order Gantt chart: tasks for Purchase, Work and Sales Orders with their
    display window, delay days, delay flags and status colour. Dates are day
    numbers (`None` for an empty date field) and `date_diff(a, b)` is `a - b`. */
module GanttData {

  datatype Option<T> = None | Some(value: T)

  /** `a or b` on two dates. */
  function OrDate(a: Option<int>, b: int): int {
    match a
    case Some(x) => x
    case None => b
  }

  /** `a or b` on two texts. */
  function OrText(a: string, b: string): string {
    if a != "" then a else b
  }

  /** One order row as the query returns it; the dependencies of Work and Sales
      Orders are the `order_name`s of their Order Dependency rows. */
  datatype Order =
    | PurchaseOrder(name: string, supplierName: string, transactionDate: Option<int>, scheduleDate: Option<int>,
                    etaDate: Option<int>, perReceived: real, status: string, project: string)
    | WorkOrder(name: string, productionItem: string, itemName: string, plannedStartDate: Option<int>,
                plannedEndDate: Option<int>, expectedDeliveryDate: Option<int>, actualStartDate: Option<int>,
                actualEndDate: Option<int>, qty: real, producedQty: real, status: string, project: string,
                dependencies: seq<string>)
    | SalesOrder(name: string, customerName: string, transactionDate: Option<int>, deliveryDate: Option<int>,
                 estimatedShippingDate: Option<int>, actualShippingDate: Option<int>, actualDeliveryDate: Option<int>,
                 perDelivered: real, status: string, project: string, dependencies: seq<string>)

  datatype OrderKind = PurchaseKind | WorkKind | SalesKind

  datatype Colour = Completed | CompletedLate | Delayed | AtRisk | Normal

  /** A lateness measure: days late (negative when early) and whether it counts as late. */
  datatype Lateness = Lateness(days: int, late: bool)

  /** The one rule behind the Work Order start and end delays and the Sales
      Order shipping and delivery delays: with no planned date nothing is late;
      once the event happened its lateness is actual minus planned; before it
      happened and while it is still `pending`, being past the planned date
      makes it late by today minus planned. */
  function LatenessOf(planned: Option<int>, happened: Option<int>, pending: bool, today: int): (r: Lateness)
    ensures r.late <==> r.days > 0
    ensures planned.None? ==> r == Lateness(0, false)
    ensures planned.Some? && happened.Some? ==> r.days == happened.value - planned.value
    ensures planned.Some? && happened.None? ==>
              r == (if pending && today > planned.value then Lateness(today - planned.value, true) else Lateness(0, false))
  {
    match planned
    case None => Lateness(0, false)
    case Some(p) =>
      match happened
      case Some(a) => Lateness(a - p, a - p > 0)
      case None => if pending && today > p then Lateness(today - p, true) else Lateness(0, false)
  }

  /** Two lateness measures combined as the Work and Sales Orders combine them:
      late when either is, by the larger number of days. */
  lemma CombinedLateness(a: Lateness, b: Lateness)
    requires a.late <==> a.days > 0
    requires b.late <==> b.days > 0
    ensures (a.late || b.late) <==> Max(a.days, b.days) > 0
    ensures a.late ==> Max(a.days, b.days) >= a.days
    ensures b.late ==> Max(a.days, b.days) >= b.days
  {
  }

  function Max(a: int, b: int): (m: int)
    ensures m >= a && m >= b && (m == a || m == b)
  {
    if a >= b then a else b
  }

  /** The colour of a Purchase Order: completed first, then delayed, then at risk. */
  function PurchaseColour(received: bool, delayed: bool, risk: bool): (c: Colour)
    ensures c == Completed <==> received
    ensures c == Delayed <==> !received && delayed
    ensures c == AtRisk <==> !received && !delayed && risk
    ensures c == Normal <==> !received && !delayed && !risk
    ensures c != CompletedLate
  {
    if received then Completed else if delayed then Delayed else if risk then AtRisk else Normal
  }

  /** The colour of a Work or Sales Order: completed (late or not) first, then
      delayed by the end (delivery) date, then at risk by the start (shipping) date. */
  function CompletionColour(done: bool, late: bool, warned: bool): (c: Colour)
    ensures (c == Completed || c == CompletedLate) <==> done
    ensures c == CompletedLate <==> done && late
    ensures c == Delayed <==> !done && late
    ensures c == AtRisk <==> !done && !late && warned
    ensures c == Normal <==> !done && !late && !warned
  {
    if done then (if late then CompletedLate else Completed)
    else if late then Delayed
    else if warned then AtRisk
    else Normal
  }

  /** The per-kind fields of a task. */
  datatype Detail =
    | PurchaseDetail(requiredDate: Option<int>, delayRisk: bool)
    | WorkDetail(plannedStart: Option<int>, plannedEnd: Option<int>, actualStart: Option<int>, actualEnd: Option<int>,
                 startDelay: Lateness, endDelay: Lateness)
    | SalesDetail(estimatedShipping: Option<int>, actualShipping: Option<int>, customerRequired: Option<int>,
                  actualDelivery: Option<int>, shippingDelay: Lateness, deliveryDelay: Lateness)

  datatype Task = Task(
    id: string,
    title: string,
    kind: OrderKind,
    start: int,
    end: int,
    progress: real,
    dependencies: seq<string>,
    isDelayed: bool,
    delayDays: int,
    status: string,
    colour: Colour,
    project: string,
    detail: Detail)

  /** A Work Order's planned end: `planned_end_date or expected_delivery_date`. */
  function PlannedEnd(o: Order): Option<int>
    requires o.WorkOrder?
  {
    if o.plannedEndDate.Some? then o.plannedEndDate else o.expectedDeliveryDate
  }

  /** The displayed start and end of an order's bar. */
  function Span(o: Order, today: int): (int, int) {
    match o
    case PurchaseOrder(_, _, _, _, _, _, _, _) =>
      var start := OrDate(o.transactionDate, today);
      (start, OrDate(o.etaDate, OrDate(o.scheduleDate, start)))
    case WorkOrder(_, _, _, _, _, _, _, _, _, _, _, _, _) =>
      var start := OrDate(o.actualStartDate, OrDate(o.plannedStartDate, today));
      (start, OrDate(o.actualEndDate, OrDate(PlannedEnd(o), start)))
    case SalesOrder(_, _, _, _, _, _, _, _, _, _, _) =>
      var start := OrDate(o.transactionDate, today);
      (start, OrDate(o.actualDeliveryDate, OrDate(o.deliveryDate, start)))
  }

  /** The date filter: an order is skipped when it ends before `from` or starts after `to`. */
  predicate InWindow(o: Order, today: int, from: Option<int>, to: Option<int>) {
    var (start, end) := Span(o, today);
    !(from.Some? && end < from.value) && !(to.Some? && start > to.value)
  }

  /** The task of a Purchase Order. Past the required date and not fully
      received, it is delayed by today minus required; otherwise an ETA after
      the required date puts it at risk by ETA minus required. */
  function PurchaseTask(o: Order, today: int): (t: Task)
    requires o.PurchaseOrder?
    ensures t.id == o.name && t.kind == PurchaseKind && (t.start, t.end) == Span(o, today)
    ensures t.progress == o.perReceived && t.detail.PurchaseDetail? && t.detail.requiredDate == o.scheduleDate
    ensures t.isDelayed <==> o.scheduleDate.Some? && o.perReceived < 100.0 && today > o.scheduleDate.value
    ensures t.detail.delayRisk <==>
              o.scheduleDate.Some? && !t.isDelayed && o.etaDate.Some? && o.etaDate.value > o.scheduleDate.value
    ensures !(t.isDelayed && t.detail.delayRisk)
    ensures (t.isDelayed || t.detail.delayRisk) <==> t.delayDays > 0
    ensures !t.isDelayed && !t.detail.delayRisk ==> t.delayDays == 0
    ensures t.colour == PurchaseColour(o.perReceived >= 100.0, t.isDelayed, t.detail.delayRisk)
  {
    var (start, end) := Span(o, today);
    var required := o.scheduleDate;
    var delayed := required.Some? && o.perReceived < 100.0 && today > required.value;
    var risk := required.Some? && !delayed && o.etaDate.Some? && o.etaDate.value > required.value;
    var days := if delayed then today - required.value else if risk then o.etaDate.value - required.value else 0;
    Task(o.name, "PO: " + OrText(o.supplierName, o.name), PurchaseKind, start, end, o.perReceived, [],
         delayed, days, o.status, PurchaseColour(o.perReceived >= 100.0, delayed, risk), o.project,
         PurchaseDetail(required, risk))
  }

  /** A Work Order's progress: produced over ordered quantity, in percent. */
  function WorkProgress(o: Order): (p: real)
    requires o.WorkOrder?
    ensures o.qty <= 0.0 ==> p == 0.0
    ensures o.qty > 0.0 ==> (p >= 100.0 <==> o.producedQty >= o.qty)
  {
    if o.qty > 0.0 then PercentReached(o.producedQty, o.qty); o.producedQty / o.qty * 100.0 else 0.0
  }

  /** `a / b * 100` reaches 100 exactly when `a` reaches `b`. */
  lemma PercentReached(a: real, b: real)
    requires b > 0.0
    ensures a / b * 100.0 >= 100.0 <==> a >= b
  {
    var q := a / b;
    assert q * b == a;
    if q >= 1.0 {
      assert q * b >= 1.0 * b;
    } else {
      assert q * b < 1.0 * b;
    }
  }

  /** The task of a Work Order: a late start makes it at risk, a late end
      delayed (or completed late), and it is delayed by the larger of the two. */
  function WorkTask(o: Order, today: int): (t: Task)
    requires o.WorkOrder?
    ensures t.id == o.name && t.kind == WorkKind && (t.start, t.end) == Span(o, today)
    ensures t.progress == WorkProgress(o) && t.dependencies == o.dependencies && t.detail.WorkDetail?
    ensures t.detail.startDelay == LatenessOf(o.plannedStartDate, o.actualStartDate, true, today)
    ensures t.detail.endDelay ==
              LatenessOf(PlannedEnd(o), if WorkProgress(o) >= 100.0 then o.actualEndDate else None, WorkProgress(o) < 100.0, today)
    ensures t.isDelayed <==> t.detail.startDelay.late || t.detail.endDelay.late
    ensures t.isDelayed <==> t.delayDays > 0
    ensures t.delayDays == Max(t.detail.startDelay.days, t.detail.endDelay.days)
    ensures t.colour == CompletionColour(WorkProgress(o) >= 100.0, t.detail.endDelay.late, t.detail.startDelay.late)
  {
    var (start, end) := Span(o, today);
    var progress := WorkProgress(o);
    var s := LatenessOf(o.plannedStartDate, o.actualStartDate, true, today);
    var e := LatenessOf(PlannedEnd(o), if progress >= 100.0 then o.actualEndDate else None, progress < 100.0, today);
    CombinedLateness(s, e);
    Task(o.name, "WO: " + OrText(o.itemName, o.productionItem), WorkKind, start, end, progress, o.dependencies,
         s.late || e.late, Max(s.days, e.days), o.status, CompletionColour(progress >= 100.0, e.late, s.late), o.project,
         WorkDetail(o.plannedStartDate, PlannedEnd(o), o.actualStartDate, o.actualEndDate, s, e))
  }

  /** The task of a Sales Order: a late shipment makes it at risk, a late
      delivery delayed (or completed late). */
  function SalesTask(o: Order, today: int): (t: Task)
    requires o.SalesOrder?
    ensures t.id == o.name && t.kind == SalesKind && (t.start, t.end) == Span(o, today)
    ensures t.progress == o.perDelivered && t.dependencies == o.dependencies && t.detail.SalesDetail?
    ensures t.detail.shippingDelay == LatenessOf(o.estimatedShippingDate, o.actualShippingDate, true, today)
    ensures t.detail.deliveryDelay == LatenessOf(o.deliveryDate, o.actualDeliveryDate, o.perDelivered < 100.0, today)
    ensures t.isDelayed <==> t.detail.shippingDelay.late || t.detail.deliveryDelay.late
    ensures t.isDelayed <==> t.delayDays > 0
    ensures t.delayDays == Max(t.detail.shippingDelay.days, t.detail.deliveryDelay.days)
    ensures t.colour == CompletionColour(o.perDelivered >= 100.0, t.detail.deliveryDelay.late, t.detail.shippingDelay.late)
  {
    var (start, end) := Span(o, today);
    var s := LatenessOf(o.estimatedShippingDate, o.actualShippingDate, true, today);
    var d := LatenessOf(o.deliveryDate, o.actualDeliveryDate, o.perDelivered < 100.0, today);
    CombinedLateness(s, d);
    Task(o.name, "SO: " + OrText(o.customerName, o.name), SalesKind, start, end, o.perDelivered, o.dependencies,
         s.late || d.late, Max(s.days, d.days), o.status, CompletionColour(o.perDelivered >= 100.0, d.late, s.late), o.project,
         SalesDetail(o.estimatedShippingDate, o.actualShippingDate, o.deliveryDate, o.actualDeliveryDate, s, d))
  }

  function TaskOf(o: Order, today: int): Task {
    match o
    case PurchaseOrder(_, _, _, _, _, _, _, _) => PurchaseTask(o, today)
    case WorkOrder(_, _, _, _, _, _, _, _, _, _, _, _, _) => WorkTask(o, today)
    case SalesOrder(_, _, _, _, _, _, _, _, _, _, _) => SalesTask(o, today)
  }

  /** The tasks of the orders inside the window, in query order. */
  function TasksOf(orders: seq<Order>, today: int, from: Option<int>, to: Option<int>): seq<Task>
    decreases |orders|
  {
    if orders == [] then []
    else
      var last := orders[|orders| - 1];
      TasksOf(orders[..|orders| - 1], today, from, to) + (if InWindow(last, today, from, to) then [TaskOf(last, today)] else [])
  }

  /** The loop of `get_purchase_order_tasks`, `get_work_order_tasks` and `get_sales_order_tasks`. */
  method OrderTasks(orders: seq<Order>, today: int, from: Option<int>, to: Option<int>) returns (tasks: seq<Task>)
    ensures tasks == TasksOf(orders, today, from, to)
  {
    tasks := [];
    var i := 0;
    while i < |orders|
      invariant 0 <= i <= |orders|
      invariant tasks == TasksOf(orders[..i], today, from, to)
    {
      assert orders[..i + 1][..i] == orders[..i];
      if InWindow(orders[i], today, from, to) {
        tasks := tasks + [TaskOf(orders[i], today)];
      }
      i := i + 1;
    }
    assert orders[..i] == orders;
  }

  /** Filtering splits over concatenation, so the tasks keep the orders' order. */
  lemma {:induction false} TasksOfAppend(a: seq<Order>, b: seq<Order>, today: int, from: Option<int>, to: Option<int>)
    ensures TasksOf(a + b, today, from, to) == TasksOf(a, today, from, to) + TasksOf(b, today, from, to)
    decreases |b|
  {
    if b == [] {
      assert a + b == a;
    } else {
      var b' := b[..|b| - 1];
      assert (a + b)[..|a + b| - 1] == a + b';
      assert (a + b)[|a + b| - 1] == b[|b| - 1];
      TasksOfAppend(a, b', today, from, to);
    }
  }

  /** Every task comes from an order inside the window, and every order inside
      the window has its task. */
  lemma {:induction false} TasksOfExact(orders: seq<Order>, today: int, from: Option<int>, to: Option<int>, t: Task)
    ensures t in TasksOf(orders, today, from, to) <==>
              exists i :: 0 <= i < |orders| && InWindow(orders[i], today, from, to) && TaskOf(orders[i], today) == t
    decreases |orders|
  {
    if orders != [] {
      var init := orders[..|orders| - 1];
      var last := orders[|orders| - 1];
      TasksOfExact(init, today, from, to, t);
      if t in TasksOf(orders, today, from, to) && t !in TasksOf(init, today, from, to) {
        assert InWindow(last, today, from, to) && TaskOf(last, today) == t;
      }
      if exists i :: 0 <= i < |orders| && InWindow(orders[i], today, from, to) && TaskOf(orders[i], today) == t {
        var i :| 0 <= i < |orders| && InWindow(orders[i], today, from, to) && TaskOf(orders[i], today) == t;
        if i < |orders| - 1 {
          assert init[i] == orders[i];
        }
      }
    }
  }

  /** A task's bar always meets the window. */
  lemma TasksMeetWindow(orders: seq<Order>, today: int, from: Option<int>, to: Option<int>, t: Task)
    requires t in TasksOf(orders, today, from, to)
    ensures from.Some? ==> t.end >= from.value
    ensures to.Some? ==> t.start <= to.value
  {
    TasksOfExact(orders, today, from, to, t);
    var i :| 0 <= i < |orders| && InWindow(orders[i], today, from, to) && TaskOf(orders[i], today) == t;
  }

  // ---------------------------------------------------------------------------
  // `get_gantt_data`

  /** Python's `str.isspace()`, the characters `str.strip()` removes: tab to
      carriage return, the separators U+001C to U+001F, space, U+0085, U+00A0,
      U+1680, U+2000 to U+200A, U+2028, U+2029, U+202F, U+205F and U+3000. */
  predicate IsSpace(c: char) {
    || '\U{9}' <= c <= '\U{D}'
    || '\U{1C}' <= c <= '\U{20}'
    || c == '\U{85}' || c == '\U{A0}' || c == '\U{1680}'
    || '\U{2000}' <= c <= '\U{200A}'
    || c == '\U{2028}' || c == '\U{2029}' || c == '\U{202F}' || c == '\U{205F}' || c == '\U{3000}'
  }

  function TrimLeft(s: string): (r: string)
    ensures |r| <= |s| && r == s[|s| - |r|..]
    ensures forall i :: 0 <= i < |s| - |r| ==> IsSpace(s[i])
    ensures r != [] ==> !IsSpace(r[0])
  {
    if s != [] && IsSpace(s[0]) then TrimLeft(s[1..]) else s
  }

  function TrimRight(s: string): (r: string)
    ensures |r| <= |s| && r == s[..|r|]
    ensures forall i :: |r| <= i < |s| ==> IsSpace(s[i])
    ensures r != [] ==> !IsSpace(r[|r| - 1])
  {
    if s != [] && IsSpace(s[|s| - 1]) then TrimRight(s[..|s| - 1]) else s
  }

  /** `str.strip()`. */
  function Strip(s: string): string {
    TrimRight(TrimLeft(s))
  }

  /** Stripping removes whitespace from both ends and nothing else. */
  lemma {:induction false} StripSlice(s: string) returns (i: nat, j: nat)
    ensures i <= j <= |s| && Strip(s) == s[i..j]
    ensures forall k :: 0 <= k < i ==> IsSpace(s[k])
    ensures forall k :: j <= k < |s| ==> IsSpace(s[k])
    ensures i < j ==> !IsSpace(s[i]) && !IsSpace(s[j - 1])
  {
    var l := TrimLeft(s);
    var r := TrimRight(l);
    i := |s| - |l|;
    j := i + |r|;
    assert l == s[i..];
    assert r == l[..|r|];
    assert r == s[i..j];
    forall k | j <= k < |s| ensures IsSpace(s[k]) {
      assert s[k] == l[k - i];
    }
    if i < j {
      assert s[i] == r[0] == l[0];
      assert s[j - 1] == r[|r| - 1];
    }
  }

  /** An ASCII separator and a no-break space are stripped like a space. */
  lemma StripSeparators()
    ensures Strip("\U{1C}a\U{A0}") == "a"
  {
    var s := "\U{1C}a\U{A0}";
    var l := "a\U{A0}";
    assert s[1..] == l;
    assert TrimLeft(l) == l by { assert l[0] == 'a'; }
    assert TrimLeft(s) == l;
    assert l[..1] == "a";
    assert TrimRight("a") == "a";
    assert TrimRight(l) == TrimRight("a");
  }

  /** A string of Unicode spaces strips to nothing. */
  lemma StripUnicodeSpaces()
    ensures Strip("\U{3000}\U{1F}") == ""
  {
    var t := "\U{3000}\U{1F}";
    var u := "\U{1F}";
    assert t[1..] == u;
    assert u[1..] == "";
    assert TrimLeft(u) == TrimLeft("");
    assert TrimLeft(t) == TrimLeft(u);
  }

  /** `str.split(",")`. */
  function SplitComma(s: string): (parts: seq<string>)
    ensures |parts| >= 1
    ensures forall p :: p in parts ==> ',' !in p
    decreases |s|
  {
    if s == [] then [""]
    else if s[0] == ',' then [""] + SplitComma(s[1..])
    else
      var rest := SplitComma(s[1..]);
      [[s[0]] + rest[0]] + rest[1..]
  }

  /** The pieces joined back with commas. */
  function JoinComma(parts: seq<string>): string
    requires |parts| >= 1
    decreases |parts|
  {
    if |parts| == 1 then parts[0] else parts[0] + "," + JoinComma(parts[1..])
  }

  /** Splitting loses nothing: joining the pieces gives back the text. */
  lemma {:induction false} SplitJoin(s: string)
    ensures JoinComma(SplitComma(s)) == s
    decreases |s|
  {
    if s != [] {
      SplitJoin(s[1..]);
      var rest := SplitComma(s[1..]);
      if s[0] == ',' {
        var parts := [""] + rest;
        assert parts[1..] == rest;
        assert JoinComma(parts) == "," + JoinComma(rest);
      } else {
        JoinCons(s[0], rest);
      }
      assert s == [s[0]] + s[1..];
    }
  }

  /** A character glued to the first piece leads the joined text. */
  lemma {:induction false} JoinCons(c: char, rest: seq<string>)
    requires |rest| >= 1
    ensures JoinComma([[c] + rest[0]] + rest[1..]) == [c] + JoinComma(rest)
  {
    var parts := [[c] + rest[0]] + rest[1..];
    assert parts[0] == [c] + rest[0] && parts[1..] == rest[1..];
    if |rest| > 1 {
      var tail := JoinComma(rest[1..]);
      assert JoinComma(parts) == ([c] + rest[0]) + "," + tail;
      assert JoinComma(rest) == rest[0] + "," + tail;
      assert ([c] + rest[0]) + "," + tail == [c] + (rest[0] + "," + tail);
    } else {
      assert |parts| == 1;
      assert JoinComma(parts) == parts[0];
      assert JoinComma(rest) == rest[0];
    }
  }

  const AllOrderTypes: seq<string> := ["purchase", "work", "sales"]

  /** The requested order types: the comma-separated list, each piece stripped,
      or all three when none is given. */
  function OrderTypes(orderTypes: string): (r: seq<string>)
    ensures orderTypes == "" ==> r == AllOrderTypes
    ensures orderTypes != "" ==>
              (|r| == |SplitComma(orderTypes)| && forall i :: 0 <= i < |r| ==> r[i] == Strip(SplitComma(orderTypes)[i]))
  {
    if orderTypes == "" then AllOrderTypes
    else
      var parts := SplitComma(orderTypes);
      seq(|parts|, i requires 0 <= i < |parts| => Strip(parts[i]))
  }

  /** `get_gantt_data`: the tasks of the requested kinds, purchase first, then
      work, then sales. */
  method GanttTasks(orderTypes: string, purchases: seq<Order>, works: seq<Order>, sales: seq<Order>,
                    today: int, from: Option<int>, to: Option<int>) returns (tasks: seq<Task>)
    ensures var types := OrderTypes(orderTypes);
            tasks == (if "purchase" in types then TasksOf(purchases, today, from, to) else [])
                   + (if "work" in types then TasksOf(works, today, from, to) else [])
                   + (if "sales" in types then TasksOf(sales, today, from, to) else [])
  {
    var types := OrderTypes(orderTypes);
    var wantPurchase, wantWork, wantSales := "purchase" in types, "work" in types, "sales" in types;
    var purchaseTasks, workTasks, salesTasks := [], [], [];
    if wantPurchase {
      purchaseTasks := OrderTasks(purchases, today, from, to);
    }
    if wantWork {
      workTasks := OrderTasks(works, today, from, to);
    }
    if wantSales {
      salesTasks := OrderTasks(sales, today, from, to);
    }
    tasks := purchaseTasks + workTasks + salesTasks;
  }
}
