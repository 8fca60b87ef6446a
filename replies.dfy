/**
 * The controller's reply generator: a canned sentence for the conversational
 * intents, a filled template for the power and battery readings, and day
 * arithmetic against the 30-day maintenance interval.
 */
module Replies {
  import opened Wrappers
  import opened Text
  import opened Numerals
  import opened Hud
  import opened Intents

  const GreetingReplies: seq<string> := [
    "Greetings, human. How may I assist you today?",
    "Hello there. What would you like to know about your systems?",
    "ASTRID online and ready. What's your query?"]

  const StatusReplies: seq<string> := [
    "Current system status: All systems operational.",
    "Status check complete. Everything is running within normal parameters.",
    "Systems are functioning at optimal levels."]

  const UnknownReplies: seq<string> := [
    "I'm not sure I understand that query. Could you rephrase?",
    "That's outside my current knowledge base. Try asking about power, battery, or system status.",
    "I need more context to help you with that request."]

  const WaterReply: string :=
    "I don't have access to water system sensors at the moment. My current monitoring is limited to power systems."

  /** A piece of a `str.format` template: literal text or a named placeholder. */
  datatype Piece = Lit(text: string) | LoadW | SunW | BatteryPct

  type Template = seq<Piece>

  const PowerTemplates: seq<Template> := [
    [Lit("Power consumption is currently at "), LoadW, Lit("W with "), SunW, Lit("W solar generation.")],
    [Lit("Your power grid shows "), LoadW, Lit("W load against "), SunW, Lit("W solar input.")],
    [Lit("Power status: "), BatteryPct, Lit("% battery, "), LoadW, Lit("W consumption, "), SunW, Lit("W generation.")]]

  const BatteryTemplates: seq<Template> := [
    [Lit("Battery capacity is at "), BatteryPct, Lit("%.")],
    [Lit("Your energy storage shows "), BatteryPct, Lit("% remaining.")],
    [Lit("Battery status: "), BatteryPct, Lit("% capacity available.")]]

  /** The text a piece stands for: a literal, or a reading of `hud` as `int(...)` formats it. */
  function PieceText(p: Piece, hud: HudState): string {
    match p
    case Lit(s) => s
    case LoadW => Show(hud.loadW)
    case SunW => Show(hud.sunW)
    case BatteryPct => Show(hud.batteryPct)
  }

  /** `template.format(...)` with the readings of `hud`. */
  function Fill(t: Template, hud: HudState): string
    decreases |t|
  {
    if t == [] then "" else PieceText(t[0], hud) + Fill(t[1..], hud)
  }

  /** Every piece of a template shows up in the filled text. */
  lemma {:induction false} FillContains(t: Template, hud: HudState, k: nat)
    requires k < |t|
    ensures Occurs(PieceText(t[k], hud), Fill(t, hud))
    decreases k
  {
    var head := PieceText(t[0], hud);
    if k == 0 {
      OccursInside([], head, Fill(t[1..], hud));
      assert [] + head + Fill(t[1..], hud) == Fill(t, hud);
    } else {
      FillContains(t[1..], hud, k - 1);
      OccursWithin(PieceText(t[k], hud), Fill(t[1..], hud), head, []);
      assert head + Fill(t[1..], hud) + [] == Fill(t, hud);
    }
  }

  /** `random.choice(options)`, with the random draw supplied by the caller as `pick`. */
  function Choose<T>(options: seq<T>, pick: nat): (r: T)
    requires |options| > 0
    ensures r in options
  {
    options[pick % |options|]
  }

  /** Every option is the outcome of some draw. */
  lemma ChooseReaches<T>(options: seq<T>, k: nat)
    requires k < |options|
    ensures Choose(options, k) == options[k]
  {
    var n := |options|;
    assert k / n == 0;
    assert k % n == k;
  }

  const OverduePrefix := "System maintenance is overdue by "
  const OverdueSuffix := " days. Recommend scheduling a service check."
  const SincePrefix := "Last maintenance was "
  const SinceMiddle := " days ago. Next scheduled maintenance in "
  const SinceSuffix := " days."

  /** The maintenance interval, in days. */
  const MaintenanceInterval := 30

  /** The maintenance sentence for a whole number of days since the last service. */
  function MaintenanceReply(daysSince: int): string {
    if daysSince > MaintenanceInterval then
      OverduePrefix + Show(daysSince - MaintenanceInterval) + OverdueSuffix
    else
      var daysUntil := MaintenanceInterval - daysSince;
      SincePrefix + Show(daysSince) + SinceMiddle + Show(daysUntil) + SinceSuffix
  }

  /** What a maintenance sentence reports. */
  datatype Schedule = Overdue(days: int) | Upcoming(since: int, until: int)

  /**
   * The schedule the sentence should report: overdue by at least one day
   * past the interval, or else the days since and the days left, which add
   * up to the interval and leave no negative count.
   */
  function ScheduleOf(daysSince: int): (s: Schedule)
    ensures s.Overdue? <==> daysSince > MaintenanceInterval
    ensures s.Overdue? ==> s.days >= 1 && s.days + MaintenanceInterval == daysSince
    ensures s.Upcoming? ==> s.since == daysSince && s.until >= 0 && s.since + s.until == MaintenanceInterval
  {
    if daysSince > MaintenanceInterval then Overdue(daysSince - MaintenanceInterval)
    else Upcoming(daysSince, MaintenanceInterval - daysSince)
  }

  predicate StartsWith(s: string, p: string) {
    |p| <= |s| && s[..|p|] == p
  }

  /** Reads a maintenance sentence back into the schedule it reports. */
  function ReadSchedule(text: string): Option<Schedule> {
    if StartsWith(text, OverduePrefix) then
      match ReadInt(text[|OverduePrefix|..])
      case Some((n, rest)) => if rest == OverdueSuffix then Some(Overdue(n)) else None
      case None => None
    else if StartsWith(text, SincePrefix) then
      match ReadInt(text[|SincePrefix|..])
      case Some((d, rest)) =>
        if StartsWith(rest, SinceMiddle) then
          match ReadInt(rest[|SinceMiddle|..])
          case Some((u, rest')) => if rest' == SinceSuffix then Some(Upcoming(d, u)) else None
          case None => None
        else None
      case None => None
    else None
  }

  /** A number framed by a text before it and a non-digit after it is read back from the text's end. */
  lemma ReadAfter(p: string, n: int, rest: string)
    requires rest == [] || !IsDigit(rest[0])
    ensures StartsWith(p + Show(n) + rest, p)
    ensures ReadInt((p + Show(n) + rest)[|p|..]) == Some((n, rest))
  {
    var text := p + Show(n) + rest;
    assert text[..|p|] == p;
    assert text[|p|..] == Show(n) + rest;
    ShowThenRead(n, rest);
  }

  /** Regrouping a five-part sentence; stated once so that the read-back proofs need not re-derive it. */
  lemma Regroup(a: string, b: string, c: string, d: string, e: string)
    ensures a + b + c + d + e == a + b + (c + d + e)
  {
  }

  /** Text that starts differently from `p` does not start with `p`. */
  lemma DifferentStart(p: string, q: string, rest: string)
    requires p != [] && q != [] && p[0] != q[0]
    ensures !StartsWith(q + rest, p)
  {
    assert (q + rest)[0] == q[0];
  }

  lemma OverdueReplyReports(daysSince: int)
    requires daysSince > MaintenanceInterval
    ensures ReadSchedule(MaintenanceReply(daysSince)) == Some(Overdue(daysSince - MaintenanceInterval))
  {
    ReadAfter(OverduePrefix, daysSince - MaintenanceInterval, OverdueSuffix);
  }

  /** Two numbers framed by texts that do not start with a digit are both read back. */
  lemma ReadTwo(p: string, d: int, m: string, u: int, x: string)
    requires m != [] && !IsDigit(m[0])
    requires x == [] || !IsDigit(x[0])
    ensures StartsWith(p + Show(d) + m + Show(u) + x, p)
    ensures ReadInt((p + Show(d) + m + Show(u) + x)[|p|..]) == Some((d, m + Show(u) + x))
    ensures StartsWith(m + Show(u) + x, m)
    ensures ReadInt((m + Show(u) + x)[|m|..]) == Some((u, x))
  {
    var tail := m + Show(u) + x;
    Regroup(p, Show(d), m, Show(u), x);
    assert (tail)[0] == m[0];
    ReadAfter(p, d, tail);
    ReadAfter(m, u, x);
  }

  lemma UpcomingReplyReports(daysSince: int)
    requires daysSince <= MaintenanceInterval
    ensures ReadSchedule(MaintenanceReply(daysSince)) == Some(Upcoming(daysSince, MaintenanceInterval - daysSince))
  {
    var u := MaintenanceInterval - daysSince;
    var tail := SinceMiddle + Show(u) + SinceSuffix;
    Regroup(SincePrefix, Show(daysSince), SinceMiddle, Show(u), SinceSuffix);
    DifferentStart(OverduePrefix, SincePrefix, Show(daysSince) + tail);
    assert SinceMiddle[0] == ' ' && SinceSuffix[0] == ' ';
    ReadTwo(SincePrefix, daysSince, SinceMiddle, u, SinceSuffix);
  }

  /** The maintenance sentence states exactly the schedule: reading it back recovers the day counts. */
  lemma MaintenanceReplyReports(daysSince: int)
    ensures ReadSchedule(MaintenanceReply(daysSince)) == Some(ScheduleOf(daysSince))
  {
    if daysSince > MaintenanceInterval {
      OverdueReplyReports(daysSince);
    } else {
      UpcomingReplyReports(daysSince);
    }
  }

  /**
   * `generate_response`: the reply for an intent, given the random draw, the
   * days since the last maintenance and the current dashboard readings.
   */
  function Reply(intent: Intent, pick: nat, daysSince: int, hud: HudState): (r: string)
    ensures intent == Greeting ==> r in GreetingReplies
    ensures intent == Status ==> r in StatusReplies
    ensures intent == Unknown ==> r in UnknownReplies
    ensures intent == Water ==> r == WaterReply
    ensures intent == Maintenance ==> ReadSchedule(r) == Some(ScheduleOf(daysSince))
    ensures intent == Power ==> exists t :: t in PowerTemplates && r == Fill(t, hud)
    ensures intent == Battery ==> exists t :: t in BatteryTemplates && r == Fill(t, hud)
  {
    match intent
    case Greeting => Choose(GreetingReplies, pick)
    case Status => Choose(StatusReplies, pick)
    case Power => Fill(Choose(PowerTemplates, pick), hud)
    case Battery => Fill(Choose(BatteryTemplates, pick), hud)
    case Water => WaterReply
    case Maintenance => MaintenanceReplyReports(daysSince); MaintenanceReply(daysSince)
    case Unknown => Choose(UnknownReplies, pick)
  }

  /** A piece that every template of a list has shows up in the text filled from any choice among them. */
  lemma ChosenShows(ts: seq<Template>, pick: nat, hud: HudState, p: Piece)
    requires |ts| > 0 && forall i :: 0 <= i < |ts| ==> p in ts[i]
    ensures Occurs(PieceText(p, hud), Fill(Choose(ts, pick), hud))
  {
    var t := ts[pick % |ts|];
    assert p in t;
    var k :| 0 <= k < |t| && t[k] == p;
    FillContains(t, hud, k);
  }

  /** Every battery reply states the battery percentage. */
  lemma BatteryReplyStatesPercentage(pick: nat, daysSince: int, hud: HudState)
    ensures Occurs(Show(hud.batteryPct), Reply(Battery, pick, daysSince, hud))
  {
    assert forall i :: 0 <= i < |BatteryTemplates| ==> BatteryPct in BatteryTemplates[i] by {
      assert BatteryTemplates[0][1] == BatteryTemplates[1][1] == BatteryTemplates[2][1] == BatteryPct;
    }
    ChosenShows(BatteryTemplates, pick, hud, BatteryPct);
  }

  /** Every power reply states both the load and the solar reading. */
  lemma PowerReplyStatesReadings(pick: nat, daysSince: int, hud: HudState)
    ensures Occurs(Show(hud.loadW), Reply(Power, pick, daysSince, hud))
    ensures Occurs(Show(hud.sunW), Reply(Power, pick, daysSince, hud))
  {
    var t := Choose(PowerTemplates, pick);
    if pick % |PowerTemplates| == 2 {
      assert t[3] == LoadW && t[5] == SunW;
      FillContains(t, hud, 3);
      FillContains(t, hud, 5);
    } else {
      assert t[1] == LoadW && t[3] == SunW;
      FillContains(t, hud, 1);
      FillContains(t, hud, 3);
    }
  }
}
