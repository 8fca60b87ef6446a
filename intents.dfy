/**
 * The controller's intent classifier: the user's message, lower-cased and
 * trimmed, is tested against six keyword groups in a fixed order, and the
 * first group with a keyword inside the message decides the intent.
 */
module Intents {
  import opened Text

  datatype Intent = Greeting | Status | Power | Battery | Water | Maintenance | Unknown

  /** An intent with its confidence, in hundredths: 90 stands for 0.9. */
  datatype Analysis = Analysis(intent: Intent, confidence: nat)

  const GreetingWords: seq<string> := ["hello", "hi", "hey", "greetings"]
  const StatusWords: seq<string> := ["status", "how", "what", "condition", "state"]
  const PowerWords: seq<string> := ["power", "electricity", "watt", "consumption", "generation"]
  const BatteryWords: seq<string> := ["battery", "capacity", "charge", "energy", "storage"]
  const WaterWords: seq<string> := ["water", "reserve", "level", "tank"]
  const MaintenanceWords: seq<string> := ["maintenance", "service", "check", "inspect"]

  /** Python's `any(word in s for word in words)`. */
  predicate MentionsAny(words: seq<string>, s: string) {
    exists k :: 0 <= k < |words| && Occurs(words[k], s)
  }

  /** `message.lower().strip()`. */
  function Normalize(message: string): string {
    Strip(Lower(message))
  }

  /** `analyze_message`: classify the normalized message. */
  function AnalyzeMessage(message: string): Analysis {
    Classify(Normalize(message))
  }

  /** The classifier as written: one test per group, each returning early. */
  function Classify(m: string): (r: Analysis)
    ensures r.intent == Unknown <==> forall k :: 0 <= k < |Rules| ==> !MentionsAny(Rules[k].words, m)
    ensures r.confidence == ConfidenceOf(r.intent)
  {
    assert Rules[0].words == GreetingWords && Rules[1].words == StatusWords && Rules[2].words == PowerWords;
    assert Rules[3].words == BatteryWords && Rules[4].words == WaterWords && Rules[5].words == MaintenanceWords;
    if MentionsAny(GreetingWords, m) then Analysis(Greeting, 90)
    else if MentionsAny(StatusWords, m) then Analysis(Status, 80)
    else if MentionsAny(PowerWords, m) then Analysis(Power, 85)
    else if MentionsAny(BatteryWords, m) then Analysis(Battery, 90)
    else if MentionsAny(WaterWords, m) then Analysis(Water, 70)
    else if MentionsAny(MaintenanceWords, m) then Analysis(Maintenance, 80)
    else Analysis(Unknown, 30)
  }

  /** One keyword group of the priority table. */
  datatype Rule = Rule(intent: Intent, words: seq<string>, confidence: nat)

  /** The keyword groups, highest priority first. */
  const Rules: seq<Rule> := [
    Rule(Greeting, GreetingWords, 90),
    Rule(Status, StatusWords, 80),
    Rule(Power, PowerWords, 85),
    Rule(Battery, BatteryWords, 90),
    Rule(Water, WaterWords, 70),
    Rule(Maintenance, MaintenanceWords, 80)]

  const UnknownConfidence: nat := 30

  /** The fixed confidence that goes with each intent. */
  function ConfidenceOf(i: Intent): nat {
    match i
    case Greeting => 90
    case Status => 80
    case Power => 85
    case Battery => 90
    case Water => 70
    case Maintenance => 80
    case Unknown => UnknownConfidence
  }

  /**
   * The table reading of the classifier: walk the rules in order from
   * index `i` and stop at the first that matches.
   */
  function FirstMatch(rules: seq<Rule>, i: nat, m: string): (r: Analysis)
    requires i <= |rules|
    ensures r == Analysis(Unknown, UnknownConfidence) ||
            exists j :: i <= j < |rules| && r == Analysis(rules[j].intent, rules[j].confidence)
    decreases |rules| - i
  {
    if i == |rules| then Analysis(Unknown, UnknownConfidence)
    else if MentionsAny(rules[i].words, m) then Analysis(rules[i].intent, rules[i].confidence)
    else FirstMatch(rules, i + 1, m)
  }

  /** No two groups share an intent, and none claims the fallback intent. */
  predicate DistinctIntents(rules: seq<Rule>) {
    (forall i, j :: 0 <= i < j < |rules| ==> rules[i].intent != rules[j].intent)
    && forall i :: 0 <= i < |rules| ==> rules[i].intent != Unknown
  }

  /**
   * First match wins, for any table of distinct intents: walking from `i`,
   * group `k` decides exactly when it matches and no group between `i` and `k` does.
   */
  lemma {:induction false} FirstMatchAt(rules: seq<Rule>, m: string, i: nat, k: nat)
    requires i <= k < |rules| && DistinctIntents(rules)
    ensures FirstMatch(rules, i, m).intent == rules[k].intent <==>
            MentionsAny(rules[k].words, m) && forall j :: i <= j < k ==> !MentionsAny(rules[j].words, m)
    decreases |rules| - i
  {
    if !MentionsAny(rules[i].words, m) {
      if k == i {
        var r := FirstMatch(rules, i + 1, m);
        if r.intent != Unknown {
          var j :| i + 1 <= j < |rules| && r == Analysis(rules[j].intent, rules[j].confidence);
          assert rules[j].intent != rules[i].intent;
        }
      } else {
        FirstMatchAt(rules, m, i + 1, k);
      }
    }
  }

  /** The if-chain and the table walk classify every message alike. */
  lemma ClassifyIsFirstMatch(m: string)
    ensures Classify(m) == FirstMatch(Rules, 0, m)
  {
    assert FirstMatch(Rules, 6, m) == Analysis(Unknown, 30);
    assert FirstMatch(Rules, 5, m) == if MentionsAny(MaintenanceWords, m) then Analysis(Maintenance, 80) else Analysis(Unknown, 30);
    assert FirstMatch(Rules, 4, m) == if MentionsAny(WaterWords, m) then Analysis(Water, 70) else FirstMatch(Rules, 5, m);
    assert FirstMatch(Rules, 3, m) == if MentionsAny(BatteryWords, m) then Analysis(Battery, 90) else FirstMatch(Rules, 4, m);
    assert FirstMatch(Rules, 2, m) == if MentionsAny(PowerWords, m) then Analysis(Power, 85) else FirstMatch(Rules, 3, m);
    assert FirstMatch(Rules, 1, m) == if MentionsAny(StatusWords, m) then Analysis(Status, 80) else FirstMatch(Rules, 2, m);
  }

  /**
   * First match wins for the classifier's own groups: a message gets the
   * intent of group `k` exactly when some keyword of group `k` occurs in it
   * and no keyword of an earlier group does.
   */
  lemma FirstMatchWins(m: string, k: nat)
    requires k < |Rules|
    ensures Classify(m).intent == Rules[k].intent <==>
            MentionsAny(Rules[k].words, m) && forall j :: 0 <= j < k ==> !MentionsAny(Rules[j].words, m)
  {
    ClassifyIsFirstMatch(m);
    FirstMatchAt(Rules, m, 0, k);
  }

  /** A word whose first two letters never stand side by side in `s` does not occur in `s`. */
  lemma AbsentPair(w: string, s: string)
    requires |w| >= 2
    requires forall i :: 0 <= i < |s| - 1 ==> !(s[i] == w[0] && s[i + 1] == w[1])
    ensures !Occurs(w, s)
  {
    OccursAt(w, s);
    forall i | 0 <= i <= |s| - |w| ensures !WindowAt(w, s, i) {
      assert s[i..i + |w|][0] == s[i] && s[i..i + |w|][1] == s[i + 1];
    }
  }

  /** Text with no upper-case letter and no surrounding whitespace is its own normal form. */
  lemma NormalizeKeeps(s: string)
    requires forall i :: 0 <= i < |s| ==> !IsUpper(s[i])
    requires s != [] && !IsSpace(s[0]) && !IsSpace(s[|s| - 1])
    ensures Normalize(s) == s
  {
    assert Lower(s) == s;
    assert TrimStart(s) == s;
    assert TrimEnd(s) == s;
  }

  /** "hello battery" mentions a greeting, which is tested before battery. */
  lemma HelloBatteryIsGreeting()
    ensures AnalyzeMessage("hello battery") == Analysis(Greeting, 90)
  {
    var s := "hello battery";
    NormalizeKeeps(s);
    assert Occurs(GreetingWords[0], s);
  }

  /** Case and surrounding blanks do not matter: "  HELLO " is normalized to "hello" and greeted. */
  lemma ShoutedHelloIsGreeting()
    ensures AnalyzeMessage("  HELLO ") == Analysis(Greeting, 90)
  {
    ShoutedHelloNormalized();
    assert Occurs(GreetingWords[0], "hello");
  }

  lemma ShoutedHelloNormalized()
    ensures Normalize("  HELLO ") == "hello"
  {
    var l := Lower("  HELLO ");
    var e := "  hello ";
    assert |l| == |e|;
    forall i | 0 <= i < |e| ensures l[i] == e[i] {
      var c := "  HELLO "[i];
      if IsUpper(c) {
        assert l[i] as int == c as int - 'A' as int + 'a' as int;
      }
    }
    assert l == e;
    assert e == "  " + "hello" + " ";
    StripAround("  ", "hello", " ");
  }

  /** Keywords match inside longer words: "this battery" holds "hi", so it is greeted rather than answered. */
  lemma ThisBatteryIsGreeting()
    ensures AnalyzeMessage("this battery") == Analysis(Greeting, 90)
  {
    var s := "this battery";
    NormalizeKeeps(s);
    assert s[1..] == "his battery" && s[1..][..2] == GreetingWords[1];
    assert Occurs(GreetingWords[1], s);
  }

  /** A text without the letter pairs "he", "hi" and "gr" mentions no greeting word. */
  lemma {:induction false} NoGreeting(s: string)
    requires forall i :: 0 <= i < |s| - 1 ==> !(s[i] == 'h' && (s[i + 1] == 'e' || s[i + 1] == 'i'))
    requires forall i :: 0 <= i < |s| - 1 ==> !(s[i] == 'g' && s[i + 1] == 'r')
    ensures !MentionsAny(GreetingWords, s)
  {
    forall k | 0 <= k < |GreetingWords| ensures !Occurs(GreetingWords[k], s) {
      AbsentPair(GreetingWords[k], s);
    }
  }

  /** "what is my battery" is a status query: "what" is tested before "battery". */
  lemma WhatIsMyBatteryIsStatus()
    ensures AnalyzeMessage("what is my battery") == Analysis(Status, 80)
  {
    var s := "what is my battery";
    NormalizeKeeps(s);
    WhatIsMyBatteryClassified(s);
  }

  lemma WhatIsMyBatteryClassified(s: string)
    requires s == "what is my battery"
    ensures Classify(s) == Analysis(Status, 80)
  {
    NoGreeting(s);
    assert s[..4] == StatusWords[2];
    assert MentionsAny(StatusWords, s);
  }
}
