/**
 * The dashboard state the backend keeps and pushes to every client, and
 * the partial update accepted by the state endpoint.
 */
module Hud {
  import opened Wrappers

  /** The server's single dashboard state; watt and percentage readings are kept as whole numbers. */
  datatype HudState = HudState(
    headline: string,
    eve: string,
    batteryPct: int,
    loadW: int,
    sunW: int,
    loadMinW: int,
    loadMaxW: int,
    sunMinW: int,
    sunMaxW: int,
    lastUserLine: string,
    botReplyPending: Option<string>)

  /** The state the server starts with. */
  const Initial := HudState("BRAM HOUSE", "EVE", 76, 1344, 8000, 0, 5000, 0, 8000,
                            "HELLO ASTRID, HOW ARE MY RESERVE WATER LEVELS?", None)

  /** A partial update: `Some` marks a field the client supplied, `None` one it left unset. */
  datatype StateUpdate = StateUpdate(
    headline: Option<string>,
    eve: Option<string>,
    batteryPct: Option<int>,
    loadW: Option<int>,
    sunW: Option<int>,
    loadMinW: Option<int>,
    loadMaxW: Option<int>,
    sunMinW: Option<int>,
    sunMaxW: Option<int>,
    lastUserLine: Option<string>)

  /** One supplied field of an update with its new value: one `setattr` on the state. */
  datatype Assignment =
    | SetHeadline(s: string)
    | SetEve(s: string)
    | SetBatteryPct(n: int)
    | SetLoadW(n: int)
    | SetSunW(n: int)
    | SetLoadMinW(n: int)
    | SetLoadMaxW(n: int)
    | SetSunMinW(n: int)
    | SetSunMaxW(n: int)
    | SetLastUserLine(s: string)

  function Assign(h: HudState, a: Assignment): HudState {
    match a
    case SetHeadline(s) => h.(headline := s)
    case SetEve(s) => h.(eve := s)
    case SetBatteryPct(n) => h.(batteryPct := n)
    case SetLoadW(n) => h.(loadW := n)
    case SetSunW(n) => h.(sunW := n)
    case SetLoadMinW(n) => h.(loadMinW := n)
    case SetLoadMaxW(n) => h.(loadMaxW := n)
    case SetSunMinW(n) => h.(sunMinW := n)
    case SetSunMaxW(n) => h.(sunMaxW := n)
    case SetLastUserLine(s) => h.(lastUserLine := s)
  }

  /** The assignments performed one after the other. */
  function AssignAll(h: HudState, items: seq<Assignment>): HudState
    decreases |items|
  {
    if items == [] then h else AssignAll(Assign(h, items[0]), items[1..])
  }

  function Supplied<T>(v: Option<T>, make: T -> Assignment): seq<Assignment> {
    match v
    case None => []
    case Some(x) => [make(x)]
  }

  /** The supplied fields of an update, in declaration order: the items of `update.dict(exclude_unset=True)`. */
  function Items(u: StateUpdate): seq<Assignment> {
    FirstItems(u) + LastItems(u)
  }

  /** The supplied items among headline, eve, battery_pct, load_w and sun_w. */
  function FirstItems(u: StateUpdate): seq<Assignment> {
    Supplied(u.headline, s => SetHeadline(s)) + (Supplied(u.eve, s => SetEve(s))
    + (Supplied(u.batteryPct, n => SetBatteryPct(n)) + (Supplied(u.loadW, n => SetLoadW(n))
    + Supplied(u.sunW, n => SetSunW(n)))))
  }

  /** The supplied items among the four range bounds and last_user_line. */
  function LastItems(u: StateUpdate): seq<Assignment> {
    Supplied(u.loadMinW, n => SetLoadMinW(n)) + (Supplied(u.loadMaxW, n => SetLoadMaxW(n))
    + (Supplied(u.sunMinW, n => SetSunMinW(n)) + (Supplied(u.sunMaxW, n => SetSunMaxW(n))
    + Supplied(u.lastUserLine, s => SetLastUserLine(s)))))
  }

  function Or<T>(v: Option<T>, fallback: T): T {
    match v
    case Some(x) => x
    case None => fallback
  }

  /**
   * The meaning of an update, field by field: a supplied field takes the
   * supplied value, every other field keeps its old value.
   */
  function Merge(h: HudState, u: StateUpdate): (r: HudState)
    ensures u == StateUpdate(None, None, None, None, None, None, None, None, None, None) ==> r == h
    ensures r.botReplyPending == h.botReplyPending
  {
    HudState(Or(u.headline, h.headline), Or(u.eve, h.eve), Or(u.batteryPct, h.batteryPct),
             Or(u.loadW, h.loadW), Or(u.sunW, h.sunW), Or(u.loadMinW, h.loadMinW),
             Or(u.loadMaxW, h.loadMaxW), Or(u.sunMinW, h.sunMinW), Or(u.sunMaxW, h.sunMaxW),
             Or(u.lastUserLine, h.lastUserLine), h.botReplyPending)
  }

  lemma {:induction false} AssignAllAppend(h: HudState, a: seq<Assignment>, b: seq<Assignment>)
    ensures AssignAll(h, a + b) == AssignAll(AssignAll(h, a), b)
    decreases |a|
  {
    if a == [] {
      assert a + b == b;
    } else {
      assert (a + b)[1..] == a[1..] + b;
      AssignAllAppend(Assign(h, a[0]), a[1..], b);
    }
  }

  lemma AssignAllOne<T>(h: HudState, v: Option<T>, make: T -> Assignment)
    ensures AssignAll(h, Supplied(v, make)) == if v.Some? then Assign(h, make(v.value)) else h
  {
    if v.Some? {
      assert Supplied(v, make)[1..] == [];
    }
  }

  /** Setting the first five supplied fields one after the other updates exactly those fields. */
  lemma {:induction false} FirstItemsMerge(h: HudState, u: StateUpdate)
    ensures AssignAll(h, FirstItems(u)) == h.(headline := Or(u.headline, h.headline), eve := Or(u.eve, h.eve),
      batteryPct := Or(u.batteryPct, h.batteryPct), loadW := Or(u.loadW, h.loadW), sunW := Or(u.sunW, h.sunW))
  {
    var p1 := Supplied(u.headline, s => SetHeadline(s));
    var p2 := Supplied(u.eve, s => SetEve(s));
    var p3 := Supplied(u.batteryPct, n => SetBatteryPct(n));
    var p4 := Supplied(u.loadW, n => SetLoadW(n));
    var p5 := Supplied(u.sunW, n => SetSunW(n));
    var r4 := p4 + p5;
    var r3 := p3 + r4;
    var r2 := p2 + r3;
    assert FirstItems(u) == p1 + r2;
    AssignAllAppend(h, p1, r2);
    AssignAllOne(h, u.headline, s => SetHeadline(s));
    var h1 := AssignAll(h, p1);
    assert h1 == h.(headline := Or(u.headline, h.headline));
    AssignAllAppend(h1, p2, r3);
    AssignAllOne(h1, u.eve, s => SetEve(s));
    var h2 := AssignAll(h1, p2);
    assert h2 == h1.(eve := Or(u.eve, h1.eve));
    AssignAllAppend(h2, p3, r4);
    AssignAllOne(h2, u.batteryPct, n => SetBatteryPct(n));
    var h3 := AssignAll(h2, p3);
    assert h3 == h2.(batteryPct := Or(u.batteryPct, h2.batteryPct));
    AssignAllAppend(h3, p4, p5);
    AssignAllOne(h3, u.loadW, n => SetLoadW(n));
    var h4 := AssignAll(h3, p4);
    assert h4 == h3.(loadW := Or(u.loadW, h3.loadW));
    AssignAllOne(h4, u.sunW, n => SetSunW(n));
    var h5 := AssignAll(h4, p5);
    assert h5 == h4.(sunW := Or(u.sunW, h4.sunW));
  }

  /** Setting the last five supplied fields one after the other updates exactly those fields. */
  lemma {:induction false} LastItemsMerge(h: HudState, u: StateUpdate)
    ensures AssignAll(h, LastItems(u)) == h.(loadMinW := Or(u.loadMinW, h.loadMinW),
      loadMaxW := Or(u.loadMaxW, h.loadMaxW), sunMinW := Or(u.sunMinW, h.sunMinW),
      sunMaxW := Or(u.sunMaxW, h.sunMaxW), lastUserLine := Or(u.lastUserLine, h.lastUserLine))
  {
    var p6 := Supplied(u.loadMinW, n => SetLoadMinW(n));
    var p7 := Supplied(u.loadMaxW, n => SetLoadMaxW(n));
    var p8 := Supplied(u.sunMinW, n => SetSunMinW(n));
    var p9 := Supplied(u.sunMaxW, n => SetSunMaxW(n));
    var p10 := Supplied(u.lastUserLine, s => SetLastUserLine(s));
    var r9 := p9 + p10;
    var r8 := p8 + r9;
    var r7 := p7 + r8;
    assert LastItems(u) == p6 + r7;
    AssignAllAppend(h, p6, r7);
    AssignAllOne(h, u.loadMinW, n => SetLoadMinW(n));
    var h6 := AssignAll(h, p6);
    assert h6 == h.(loadMinW := Or(u.loadMinW, h.loadMinW));
    AssignAllAppend(h6, p7, r8);
    AssignAllOne(h6, u.loadMaxW, n => SetLoadMaxW(n));
    var h7 := AssignAll(h6, p7);
    assert h7 == h6.(loadMaxW := Or(u.loadMaxW, h6.loadMaxW));
    AssignAllAppend(h7, p8, r9);
    AssignAllOne(h7, u.sunMinW, n => SetSunMinW(n));
    var h8 := AssignAll(h7, p8);
    assert h8 == h7.(sunMinW := Or(u.sunMinW, h7.sunMinW));
    AssignAllAppend(h8, p9, p10);
    AssignAllOne(h8, u.sunMaxW, n => SetSunMaxW(n));
    var h9 := AssignAll(h8, p9);
    assert h9 == h8.(sunMaxW := Or(u.sunMaxW, h8.sunMaxW));
    AssignAllOne(h9, u.lastUserLine, s => SetLastUserLine(s));
    var h10 := AssignAll(h9, p10);
    assert h10 == h9.(lastUserLine := Or(u.lastUserLine, h9.lastUserLine));
  }

  /** Setting the supplied fields one after the other yields exactly the field-by-field update. */
  lemma {:induction false} ItemsMerge(h: HudState, u: StateUpdate)
    ensures AssignAll(h, Items(u)) == Merge(h, u)
  {
    AssignAllAppend(h, FirstItems(u), LastItems(u));
    FirstItemsMerge(h, u);
    LastItemsMerge(AssignAll(h, FirstItems(u)), u);
  }

  /** Applying the same update twice changes nothing the first application did not. */
  lemma MergeIdempotent(h: HudState, u: StateUpdate)
    ensures Merge(Merge(h, u), u) == Merge(h, u)
  {
  }
}
