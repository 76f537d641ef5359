/** Network changes as the user asks for them, and the requests they are turned into. */
module NetworkChange {
  import opened Wrappers
  import opened Rpcd

  datatype Change =
    | Address(section: string, address: string)
    | Dhcp(section: string)
    | Up(section: string)
    | Down(section: string)
    | RouteAdd(target: string, gateway: string, metric: Option<string>, interface: string)
    | RouteDel(target: string, gateway: string)

  // ---------- what a change means ----------

  predicate IsRoute(s: Section, target: string, gateway: string) {
    && s.kind == "route"
    && "target" in s.options && s.options["target"] == target
    && "gateway" in s.options && s.options["gateway"] == gateway
  }

  function RouteIndex(c: Config, target: string, gateway: string): (i: nat)
    ensures i <= |c|
    ensures i < |c| ==> IsRoute(c[i], target, gateway)
    ensures forall k :: 0 <= k < i ==> !IsRoute(c[k], target, gateway)
  {
    if c == [] || IsRoute(c[0], target, gateway) then 0 else 1 + RouteIndex(c[1..], target, gateway)
  }

  function RouteValues(target: string, gateway: string, metric: Option<string>, interface: string): map<string, string> {
    var values := map["target" := target, "gateway" := gateway, "interface" := interface];
    if metric.Some? then values["metric" := metric.value] else values
  }

  function Updated(c: Config, section: string, options: map<string, string> -> map<string, string>): Option<Config> {
    var i := Index(c, section);
    if i < |c| then Some(c[i := c[i].(options := options(c[i].options))]) else None
  }

  /** The configuration a change asks for; None where it does not apply. */
  function Meaning(change: Change, c: Config): Option<Config> {
    match change
    case Address(s, a) => Updated(c, s, (o: map<string, string>) => o["proto" := "static"]["ipaddr" := a])
    case Dhcp(s) => Updated(c, s, (o: map<string, string>) => o["proto" := "dhcp"] - {"ipaddr"})
    case Up(s) => Updated(c, s, (o: map<string, string>) => o["disabled" := "0"])
    case Down(s) => Updated(c, s, (o: map<string, string>) => o["disabled" := "1"])
    case RouteAdd(t, g, m, i) => Some(c + [Section(FreshName(c), "route", RouteValues(t, g, m, i))])
    case RouteDel(t, g) =>
      var i := RouteIndex(c, t, g);
      if i < |c| && |c[i].name| < 64 then Some(c[..i] + c[i + 1..]) else None
  }

  ghost predicate UniqueNames(c: Config) {
    forall i, j :: 0 <= i < j < |c| ==> c[i].name != c[j].name
  }

  // ---------- what is staged for it ----------

  /** Name of the first matching route; one that does not fit the buffer counts as not found. */
  function FindRoute(c: Config, target: string, gateway: string): Option<string> {
    var i := RouteIndex(c, target, gateway);
    if i < |c| && |c[i].name| < 64 then Some(c[i].name) else None
  }

  predicate OptionExists(c: Config, section: string, option: string)
    requires HasSection(c, section)
  {
    option in c[Index(c, section)].options
  }

  /** The requests a change turns into. */
  function Plan(change: Change, c: Config): Option<seq<Op>> {
    match change
    case Address(s, a) =>
      if HasSection(c, s) then Some([SetOptions(s, map["proto" := "static", "ipaddr" := a])]) else None
    case Dhcp(s) =>
      if !HasSection(c, s) then None
      else
        var set1 := SetOptions(s, map["proto" := "dhcp"]);
        Some(if OptionExists(c, s, "ipaddr") then [set1, DeleteOption(s, "ipaddr")] else [set1])
    case Up(s) => if HasSection(c, s) then Some([SetOptions(s, map["disabled" := "0"])]) else None
    case Down(s) => if HasSection(c, s) then Some([SetOptions(s, map["disabled" := "1"])]) else None
    case RouteAdd(t, g, m, i) => Some([AddSection("route", RouteValues(t, g, m, i))])
    case RouteDel(t, g) =>
      var name := FindRoute(c, t, g);
      if name.Some? then Some([DeleteSection(name.value)]) else None
  }

  lemma ApplyOne(c: Config, op: Op)
    ensures ApplyOps(c, [op]) == ApplyOp(c, op)
  {
    assert [op][..0] == [];
    assert ApplyOps(c, []) == c;
  }

  lemma ApplyTwo(c: Config, op: Op, op': Op)
    ensures ApplyOps(c, [op, op']) == ApplyOp(ApplyOp(c, op), op')
  {
    assert [op, op'][..1] == [op];
    ApplyOne(c, op);
  }

  lemma {:induction false} IndexIs(c: Config, name: string, i: nat)
    requires i < |c| && c[i].name == name && forall k :: 0 <= k < i ==> c[k].name != name
    ensures Index(c, name) == i
  {
    if i > 0 {
      IndexIs(c[1..], name, i - 1);
    }
  }

  /** Replacing the options of a section does not move it. */
  lemma IndexAfterUpdate(c: Config, name: string, options: map<string, string>)
    requires HasSection(c, name)
    ensures Index(c[Index(c, name) := c[Index(c, name)].(options := options)], name) == Index(c, name)
  {
    var i := Index(c, name);
    IndexIs(c[i := c[i].(options := options)], name, i);
  }

  /** What it means for a plan to be right: it is there when the change applies, and does just that. */
  ghost predicate IsRightPlan(change: Change, c: Config) {
    && (Plan(change, c).Some? <==> Meaning(change, c).Some?)
    && (Plan(change, c).Some? ==> ApplyOps(c, Plan(change, c).value) == Meaning(change, c).value)
  }

  /** Applying the plan does exactly what the change asks for; there is a plan whenever that exists. */
  lemma PlanMeaning(change: Change, c: Config)
    requires UniqueNames(c)
    ensures IsRightPlan(change, c)
  {
    hide IsRightPlan, UniqueNames;
    match change {
      case Dhcp(s) => DhcpIsRight(c, s);
      case Address(s, a) => AddressIsRight(c, s, a);
      case Up(s) => UpIsRight(c, s);
      case Down(s) => DownIsRight(c, s);
      case RouteAdd(t, g, m, i) => RouteAddIsRight(c, t, g, m, i);
      case RouteDel(t, g) => RouteDelIsRight(c, t, g);
    }
  }

  lemma DhcpIsRight(c: Config, s: string)
    ensures IsRightPlan(Dhcp(s), c)
  {
    if HasSection(c, s) {
      DhcpMeaning(c, s);
    }
    hide ApplyOps;
  }

  lemma AddressIsRight(c: Config, s: string, a: string)
    ensures IsRightPlan(Address(s, a), c)
  {
    hide ApplyOps;
    if HasSection(c, s) {
      ApplyOne(c, SetOptions(s, map["proto" := "static", "ipaddr" := a]));
      var o := c[Index(c, s)].options;
      assert o + map["proto" := "static", "ipaddr" := a] == o["proto" := "static"]["ipaddr" := a];
    }
  }

  lemma UpIsRight(c: Config, s: string)
    ensures IsRightPlan(Up(s), c)
  {
    hide ApplyOps;
    if HasSection(c, s) {
      ApplyOne(c, SetOptions(s, map["disabled" := "0"]));
      var o := c[Index(c, s)].options;
      assert o + map["disabled" := "0"] == o["disabled" := "0"];
    }
  }

  lemma DownIsRight(c: Config, s: string)
    ensures IsRightPlan(Down(s), c)
  {
    hide ApplyOps;
    if HasSection(c, s) {
      ApplyOne(c, SetOptions(s, map["disabled" := "1"]));
      var o := c[Index(c, s)].options;
      assert o + map["disabled" := "1"] == o["disabled" := "1"];
    }
  }

  lemma RouteAddIsRight(c: Config, t: string, g: string, m: Option<string>, i: string)
    ensures IsRightPlan(RouteAdd(t, g, m, i), c)
  {
    hide ApplyOps, RouteValues;
    ApplyOne(c, AddSection("route", RouteValues(t, g, m, i)));
  }

  lemma RouteDelIsRight(c: Config, t: string, g: string)
    requires UniqueNames(c)
    ensures IsRightPlan(RouteDel(t, g), c)
  {
    hide ApplyOps;
    var name := FindRoute(c, t, g);
    if name.Some? {
      ApplyOne(c, DeleteSection(name.value));
      IndexIs(c, name.value, RouteIndex(c, t, g));
    }
  }

  lemma DhcpMeaning(c: Config, s: string)
    requires HasSection(c, s)
    ensures ApplyOps(c, Plan(Dhcp(s), c).value) == Meaning(Dhcp(s), c).value
  {
    var i := Index(c, s);
    var plan := Plan(Dhcp(s), c).value;
    var o := c[i].options["proto" := "dhcp"];
    assert c[i].options + map["proto" := "dhcp"] == o;
    if OptionExists(c, s, "ipaddr") {
      ApplyTwo(c, plan[0], plan[1]);
      IndexAfterUpdate(c, s, o);
    } else {
      ApplyOne(c, plan[0]);
      assert o - {"ipaddr"} == o;
    }
  }
}
