/** The main page's in-memory tracking log (`userData`): symptom entries
    kept one per date, the medication list, and the four goal counters
    with their milestone awards; plus the pure helpers the page draws
    with (mood emoji, reminder filter, cycle-change summary). */
module Tracker {
  import opened Opt
  import opened Store
  import opened Seqs

  /** One logged day. */
  datatype SymptomEntry = SymptomEntry(
    id: int,
    date: string,
    mood: int,
    sleep: int,
    weight: Option<real>,
    weightUnit: string,
    cycleChanges: seq<string>,
    notes: string,
    timestamp: nat)

  /** The tracking form as submitted: a rating button left unselected is
      `None`, and a weight left blank is `None`. */
  datatype SymptomForm = SymptomForm(
    date: string,
    mood: Option<int>,
    sleep: Option<int>,
    weight: Option<real>,
    weightUnit: string,
    cycleChanges: seq<string>,
    notes: string)

  datatype Medication = Medication(id: int, name: string, dosage: string, frequency: string, time: string, addedDate: nat)

  /** What a submission of the tracking form did. */
  datatype Submission = Rejected(alert: string) | Logged(achievements: seq<string>)

  const SelectDateMsg := "Please select a date"
  const RateMsg := "Please rate your mood and sleep quality"
  const FillMedicationMsg := "Please fill in all medication fields"

  // The celebration texts, with their emoji as the page stores them.
  const StreakMsg := "7-day tracking streak! \U{F8FF}\U{FC}\U{E5}\U{FC}"
  const MonthMsg := "30-day tracking milestone! \U{F8FF}\U{FC}\U{E9}\U{E2}"
  const SymptomsMsg := "50 symptoms logged! \U{F8FF}\U{FC}\U{EC}\U{E4}"
  const MedicationsMsg := "10 medications taken on time! \U{F8FF}\U{FC}\U{ED}\U{E4}"

  /** The five mood faces, for ratings 1 to 5, as the page stores them. */
  const MoodEmojis: seq<string> := [
    "\U{F8FF}\U{FC}\U{F2}\U{FB}",
    "\U{F8FF}\U{FC}\U{F2}\U{EA}",
    "\U{F8FF}\U{FC}\U{F2}\U{E4}",
    "\U{F8FF}\U{FC}\U{F2}\U{D1}",
    "\U{F8FF}\U{FC}\U{A7}\U{A9}"]
  const FallbackEmoji := "\U{F8FF}\U{FC}\U{F2}\U{E4}"

  /** A rating counts as given when a button was selected and its value is
      not 0 (`!moodRating` also rejects 0). */
  predicate Rated(r: Option<int>) {
    r.Some? && r.value != 0
  }

  predicate Accepts(form: SymptomForm) {
    form.date != "" && Rated(form.mood) && Rated(form.sleep)
  }

  function EntryOf(form: SymptomForm, id: int, timestamp: nat): SymptomEntry
    requires Accepts(form)
  {
    SymptomEntry(id, form.date, form.mood.value, form.sleep.value, form.weight, form.weightUnit,
                 form.cycleChanges, form.notes, timestamp)
  }

  /** No two entries share a date. */
  ghost predicate DatesUnique(entries: seq<SymptomEntry>) {
    forall i, j :: 0 <= i < j < |entries| ==> entries[i].date != entries[j].date
  }

  /** `findIndex(s => s.date === date)`: the first entry with that date. */
  function IndexOfDate(entries: seq<SymptomEntry>, date: string): (k: Option<nat>)
    ensures k.Some? ==> k.value < |entries| && entries[k.value].date == date
    ensures k.Some? ==> forall j :: 0 <= j < k.value ==> entries[j].date != date
    ensures k.None? <==> forall j :: 0 <= j < |entries| ==> entries[j].date != date
  {
    if entries == [] then None
    else if entries[0].date == date then Some(0)
    else match IndexOfDate(entries[1..], date)
      case None => None
      case Some(k) => Some(k + 1)
  }

  /** Replace the entry of the same date in place, or append a new one. */
  function Upsert(entries: seq<SymptomEntry>, e: SymptomEntry): seq<SymptomEntry> {
    match IndexOfDate(entries, e.date)
    case Some(k) => entries[k := e]
    case None => entries + [e]
  }

  /** After an upsert the new entry is the one found for its date, the list
      grew by one exactly when the date was new, and every entry of another
      date is where it was. */
  lemma UpsertContents(entries: seq<SymptomEntry>, e: SymptomEntry)
    ensures var r := Upsert(entries, e);
      && IndexOfDate(r, e.date).Some? && r[IndexOfDate(r, e.date).value] == e
      && |r| == |entries| + (if IndexOfDate(entries, e.date).None? then 1 else 0)
      && forall i :: 0 <= i < |entries| && entries[i].date != e.date ==> r[i] == entries[i]
  {
    var r := Upsert(entries, e);
    match IndexOfDate(entries, e.date)
    case Some(k) =>
      assert r[k] == e;
      assert forall j :: 0 <= j < k ==> r[j].date != e.date;
    case None =>
      assert r[|entries|] == e;
      assert forall j :: 0 <= j < |entries| ==> r[j].date != e.date;
  }

  /** Upserting keeps dates unique. */
  lemma UpsertKeepsDatesUnique(entries: seq<SymptomEntry>, e: SymptomEntry)
    requires DatesUnique(entries)
    ensures DatesUnique(Upsert(entries, e))
  {
    var r := Upsert(entries, e);
    match IndexOfDate(entries, e.date)
    case Some(k) =>
      forall i, j | 0 <= i < j < |r| ensures r[i].date != r[j].date {
        if i != k && j != k {
          assert r[i] == entries[i] && r[j] == entries[j];
        } else if i == k {
          assert entries[j].date != entries[k].date;
        } else {
          assert entries[i].date != entries[k].date;
        }
      }
    case None =>
      forall i, j | 0 <= i < j < |r| ensures r[i].date != r[j].date {
        if j == |entries| {
          assert r[i] == entries[i];
        } else {
          assert r[i] == entries[i] && r[j] == entries[j];
        }
      }
  }

  /** The milestone messages `checkGoalAchievements` collects: each counter
      is compared for exact equality with its milestone. */
  function Achievements(g: Goals): (a: seq<string>)
    ensures (StreakMsg in a <==> g.daysTracked == 7) && (MonthMsg in a <==> g.daysTracked == 30)
    ensures (SymptomsMsg in a <==> g.symptomsLogged == 50) && (MedicationsMsg in a <==> g.medicationsTaken == 10)
    ensures a == [] <==> g.daysTracked != 7 && g.daysTracked != 30 && g.symptomsLogged != 50 && g.medicationsTaken != 10
    ensures |a| <= 3
  {
    (if g.daysTracked == 7 then [StreakMsg] else [])
    + (if g.daysTracked == 30 then [MonthMsg] else [])
    + (if g.symptomsLogged == 50 then [SymptomsMsg] else [])
    + (if g.medicationsTaken == 10 then [MedicationsMsg] else [])
  }

  /** The counters after the milestone check. */
  function Awarded(g: Goals): Goals {
    g.(goalsAchieved := g.goalsAchieved + |Achievements(g)|)
  }

  /** The award adds the number of milestones met, at most three, and
      leaves the other counters alone; meeting none changes nothing. */
  lemma AwardedBounds(g: Goals)
    ensures Awarded(g).daysTracked == g.daysTracked && Awarded(g).symptomsLogged == g.symptomsLogged
    ensures Awarded(g).medicationsTaken == g.medicationsTaken
    ensures g.goalsAchieved <= Awarded(g).goalsAchieved <= g.goalsAchieved + 3
    ensures Awarded(g) == g <==> Achievements(g) == []
  {
  }

  /** Because the milestones test equality and not crossing, the check
      awards again whenever it runs while a counter sits on its milestone:
      taking a medication on the day the streak reached 7 awards the streak
      a second time. */
  lemma StreakAwardedAgain(g: Goals)
    requires g.daysTracked == 7
    ensures var first := Awarded(g);
      var taken := first.(medicationsTaken := first.medicationsTaken + 1);
      Awarded(taken).goalsAchieved >= g.goalsAchieved + 2
  {
    var first := Awarded(g);
    assert StreakMsg in Achievements(g);
    var taken := first.(medicationsTaken := first.medicationsTaken + 1);
    assert StreakMsg in Achievements(taken);
  }

  /** `getMoodEmoji`. */
  function MoodEmoji(rating: int): (e: string)
    ensures e in MoodEmojis
    ensures 1 <= rating <= 5 ==> e == MoodEmojis[rating - 1]
    ensures !(1 <= rating <= 5) ==> e == MoodEmojis[2]
  {
    if 1 <= rating <= 5 then MoodEmojis[rating - 1] else FallbackEmoji
  }

  /** The five faces are distinct, and a rating outside 1..5 shows the
      face of rating 3. */
  lemma MoodEmojiFaces(a: int, b: int)
    requires 1 <= a <= 5 && 1 <= b <= 5 && MoodEmoji(a) == MoodEmoji(b)
    ensures a == b
    ensures MoodEmoji(0) == MoodEmoji(3) && MoodEmoji(6) == MoodEmoji(3)
  {
  }

  predicate IsDue(m: Medication) {
    m.frequency == "daily" || m.frequency == "twice-daily"
  }

  /** `updateReminders`: today's reminders are the daily and twice-daily
      medications, in list order. */
  function Reminders(meds: seq<Medication>): (r: seq<Medication>)
    ensures forall i :: 0 <= i < |r| ==> r[i] in meds && IsDue(r[i])
    ensures forall i :: 0 <= i < |meds| && IsDue(meds[i]) ==> meds[i] in r
  {
    Filter(meds, IsDue)
  }

  /** Adding a medication adds it to the end of the reminders exactly when
      it is due, and leaves the earlier reminders as they were. */
  lemma RemindersAfterAdd(meds: seq<Medication>, m: Medication)
    ensures Reminders(meds + [m]) == Reminders(meds) + (if IsDue(m) then [m] else [])
  {
    FilterAppend(meds, [m], IsDue);
    assert Filter([m], IsDue) == (if IsDue(m) then [m] else []) + Filter([m][1..], IsDue);
  }

  /** The medications `removeMedication` keeps. */
  function Without(meds: seq<Medication>, medId: int): (r: seq<Medication>)
    ensures forall i :: 0 <= i < |r| ==> r[i] in meds && r[i].id != medId
    ensures forall i :: 0 <= i < |meds| && meds[i].id != medId ==> meds[i] in r
  {
    Filter(meds, (m: Medication) => m.id != medId)
  }

  /** Removal keeps the order of the list: an appended medication is kept
      at the end exactly when its id differs. With `Without([], medId) == []`
      this determines the whole result, element by element. */
  lemma WithoutAppend(meds: seq<Medication>, m: Medication, medId: int)
    ensures Without(meds + [m], medId) == Without(meds, medId) + (if m.id != medId then [m] else [])
  {
    var keep := (x: Medication) => x.id != medId;
    FilterAppend(meds, [m], keep);
    assert Filter([m], keep) == (if keep(m) then [m] else []) + Filter([m][1..], keep);
  }

  /** Removal drops every copy of the id and keeps every other medication
      as many times as it was listed. */
  lemma WithoutMultiset(meds: seq<Medication>, medId: int, m: Medication)
    ensures multiset(Without(meds, medId))[m] == if m.id != medId then multiset(meds)[m] else 0
  {
    FilterMultiset(meds, (x: Medication) => x.id != medId, m);
  }

  class TrackingLog {
    var symptoms: seq<SymptomEntry>
    var medications: seq<Medication>
    var goals: Goals

    /** One entry per date, and one tracked day per entry. */
    ghost predicate Valid()
      reads this
    {
      DatesUnique(symptoms) && goals.daysTracked == |symptoms|
    }

    constructor ()
      ensures Valid()
      ensures symptoms == [] && medications == [] && goals == ZeroGoals
    {
      symptoms, medications, goals := [], [], ZeroGoals;
    }

    /** The `findIndex` scan of `submitSymptoms`. */
    method FindDateIndex(date: string) returns (k: Option<nat>)
      ensures k == IndexOfDate(symptoms, date)
    {
      var i := 0;
      while i < |symptoms|
        invariant 0 <= i <= |symptoms|
        invariant forall j :: 0 <= j < i ==> symptoms[j].date != date
      {
        if symptoms[i].date == date {
          return Some(i);
        }
        i := i + 1;
      }
      return None;
    }

    /** The upsert step of `submitSymptoms`; `isNew` tells whether the date
      had no entry yet. */
    method UpsertEntry(entry: SymptomEntry) returns (isNew: bool)
      modifies this
      ensures isNew == IndexOfDate(old(symptoms), entry.date).None?
      ensures symptoms == Upsert(old(symptoms), entry)
      ensures |symptoms| == |old(symptoms)| + if isNew then 1 else 0
      ensures DatesUnique(old(symptoms)) ==> DatesUnique(symptoms)
      ensures medications == old(medications) && goals == old(goals)
    {
      ghost var before := symptoms;
      var existing := FindDateIndex(entry.date);
      if existing.Some? {
        symptoms := symptoms[existing.value := entry];
      } else {
        symptoms := symptoms + [entry];
      }
      isNew := existing.None?;
      UpsertContents(before, entry);
      if DatesUnique(before) {
        UpsertKeepsDatesUnique(before, entry);
      }
    }

    /** `checkGoalAchievements`. */
    method CheckGoalAchievements() returns (achievements: seq<string>)
      modifies this
      ensures achievements == Achievements(old(goals))
      ensures goals == Awarded(old(goals))
      ensures symptoms == old(symptoms) && medications == old(medications)
    {
      achievements := [];
      if goals.daysTracked == 7 {
        achievements := achievements + [StreakMsg];
      }
      if goals.daysTracked == 30 {
        achievements := achievements + [MonthMsg];
      }
      if goals.symptomsLogged == 50 {
        achievements := achievements + [SymptomsMsg];
      }
      if goals.medicationsTaken == 10 {
        achievements := achievements + [MedicationsMsg];
      }
      if |achievements| > 0 {
        goals := goals.(goalsAchieved := goals.goalsAchieved + |achievements|);
      }
    }

    /** `submitSymptoms`: reject a form without a date or without both
      ratings; otherwise upsert the entry by date, count one more logged
      symptom entry and, for a new date, one more tracked day, then run the
      milestone check. */
    method SubmitSymptoms(form: SymptomForm, id: int, timestamp: nat) returns (outcome: Submission)
      modifies this
      ensures form.date == "" ==> outcome == Rejected(SelectDateMsg) && unchanged(this)
      ensures form.date != "" && !(Rated(form.mood) && Rated(form.sleep)) ==>
        outcome == Rejected(RateMsg) && unchanged(this)
      ensures Accepts(form) ==>
        var isNew := IndexOfDate(old(symptoms), form.date).None?;
        var counted := old(goals).(symptomsLogged := old(goals).symptomsLogged + 1,
                                   daysTracked := old(goals).daysTracked + if isNew then 1 else 0);
        && symptoms == Upsert(old(symptoms), EntryOf(form, id, timestamp))
        && medications == old(medications)
        && goals == Awarded(counted)
        && outcome == Logged(Achievements(counted))
      ensures old(Valid()) ==> Valid()
    {
      if form.date == "" {
        return Rejected(SelectDateMsg);
      }
      if !Rated(form.mood) || !Rated(form.sleep) {
        return Rejected(RateMsg);
      }
      var isNew := UpsertEntry(EntryOf(form, id, timestamp));
      goals := goals.(symptomsLogged := goals.symptomsLogged + 1);
      if isNew {
        goals := goals.(daysTracked := goals.daysTracked + 1);
      }
      var achievements := CheckGoalAchievements();
      outcome := Logged(achievements);
    }

    /** `addMedication`: all of name, dosage and time are required. */
    method AddMedication(name: string, dosage: string, frequency: string, time: string, id: int, addedDate: nat)
      returns (added: bool)
      modifies this
      ensures added <==> name != "" && dosage != "" && time != ""
      ensures !added ==> unchanged(this)
      ensures added ==> medications == old(medications) + [Medication(id, name, dosage, frequency, time, addedDate)]
      ensures symptoms == old(symptoms) && goals == old(goals)
    {
      if name == "" || dosage == "" || time == "" {
        return false;
      }
      medications := medications + [Medication(id, name, dosage, frequency, time, addedDate)];
      return true;
    }

    /** `takeMedication`: one more medication taken, whichever id was
      clicked, then the milestone check. */
    method TakeMedication(medId: int) returns (achievements: seq<string>)
      modifies this
      ensures var taken := old(goals).(medicationsTaken := old(goals).medicationsTaken + 1);
        goals == Awarded(taken) && achievements == Achievements(taken)
      ensures symptoms == old(symptoms) && medications == old(medications)
      ensures old(Valid()) ==> Valid()
    {
      goals := goals.(medicationsTaken := goals.medicationsTaken + 1);
      achievements := CheckGoalAchievements();
    }

    /** `removeMedication`, after the confirmation dialog answered `confirmed`. */
    method RemoveMedication(medId: int, confirmed: bool)
      modifies this
      ensures medications == if confirmed then Without(old(medications), medId) else old(medications)
      ensures symptoms == old(symptoms) && goals == old(goals)
    {
      if confirmed {
        medications := Without(medications, medId);
      }
    }
  }

  /** `symptoms.flatMap(s => s.cycleChanges)`. */
  function AllCycleChanges(entries: seq<SymptomEntry>): (r: seq<string>)
    ensures forall e, c :: e in entries && c in e.cycleChanges ==> c in r
  {
    if entries == [] then [] else entries[0].cycleChanges + AllCycleChanges(entries[1..])
  }

  /** The distinct labels of `xs` in order of first appearance: the key
      order of a plain object filled from `xs`. */
  function FirstOccurrences(xs: seq<string>): (r: seq<string>)
    ensures forall x :: x in r <==> x in xs
    ensures forall i, j :: 0 <= i < j < |r| ==> r[i] != r[j]
  {
    if xs == [] then []
    else
      var prefix := FirstOccurrences(xs[..|xs| - 1]);
      var last := xs[|xs| - 1];
      assert xs == xs[..|xs| - 1] + [last];
      if last in prefix then prefix else prefix + [last]
  }

  /** One more label of the tally: the distinct labels grow by it when it
      is new, and only its count moves. */
  lemma TallyStep(all: seq<string>, i: nat)
    requires i < |all|
    ensures FirstOccurrences(all[..i + 1])
         == if all[i] in all[..i] then FirstOccurrences(all[..i]) else FirstOccurrences(all[..i]) + [all[i]]
    ensures forall x :: x in all[..i + 1] <==> x in all[..i] || x == all[i]
    ensures forall x :: Count(all[..i + 1], x) == Count(all[..i], x) + if x == all[i] then 1 else 0
  {
    assert all[..i + 1] == all[..i] + [all[i]];
    assert all[..i + 1][..i] == all[..i];
    forall x ensures Count(all[..i + 1], x) == Count(all[..i], x) + if x == all[i] then 1 else 0 {
      CountAppend(all[..i], [all[i]], x);
    }
  }

  /** The labels counted so far: `order` lists them as they first
      appeared, and `counts` holds how often each occurred. */
  ghost predicate TalliedUpTo(all: seq<string>, i: nat, counts: map<string, nat>, order: seq<string>)
    requires i <= |all|
  {
    && order == FirstOccurrences(all[..i])
    && (forall x :: x in counts <==> x in all[..i])
    && (forall x :: x in counts ==> counts[x] == Count(all[..i], x))
  }

  /** One pass of the tally loop: `counts[change] = (counts[change] || 0) + 1`. */
  method TallyOne(all: seq<string>, i: nat, counts: map<string, nat>, order: seq<string>)
    returns (counts': map<string, nat>, order': seq<string>)
    requires i < |all| && TalliedUpTo(all, i, counts, order)
    ensures TalliedUpTo(all, i + 1, counts', order')
  {
    var change := all[i];
    TallyStep(all, i);
    if change in counts {
      counts' := counts[change := counts[change] + 1];
      order' := order;
    } else {
      counts' := counts[change := 1];
      order' := order + [change];
    }
    forall x | x in counts' ensures counts'[x] == Count(all[..i + 1], x) {
      if x == change {
        assert change !in counts ==> Count(all[..i], x) == 0;
      } else {
        assert x in counts && counts'[x] == counts[x];
      }
    }
  }

  /** The tally loop of `updateCharts`: each change's number of occurrences,
      in the order the labels first appear. */
  method TallyCycleChanges(entries: seq<SymptomEntry>) returns (tally: seq<(string, nat)>)
    ensures |tally| == |FirstOccurrences(AllCycleChanges(entries))|
    ensures forall k :: 0 <= k < |tally| ==>
      tally[k].0 == FirstOccurrences(AllCycleChanges(entries))[k]
      && tally[k].1 == Count(AllCycleChanges(entries), tally[k].0)
  {
    var all := AllCycleChanges(entries);
    var counts: map<string, nat> := map[];
    var order: seq<string> := [];
    for i := 0 to |all|
      invariant TalliedUpTo(all, i, counts, order)
    {
      counts, order := TallyOne(all, i, counts, order);
    }
    assert all[..|all|] == all;
    tally := seq(|order|, k requires 0 <= k < |order| => (order[k], counts[order[k]]));
  }

  /** Non-increasing by count. */
  ghost predicate ByCountDesc(t: seq<(string, nat)>) {
    forall i, j :: 0 <= i < j < |t| ==> t[i].1 >= t[j].1
  }

  /** Insert `x` before the first entry whose count it reaches. */
  function InsertByCount(x: (string, nat), sorted: seq<(string, nat)>): (r: seq<(string, nat)>)
    ensures multiset(r) == multiset(sorted) + multiset{x}
    ensures forall e :: e in r <==> e == x || e in sorted
    ensures |r| == |sorted| + 1
  {
    if sorted == [] || x.1 >= sorted[0].1 then [x] + sorted
    else
      assert sorted == [sorted[0]] + sorted[1..];
      [sorted[0]] + InsertByCount(x, sorted[1..])
  }

  lemma {:induction false} InsertByCountSorted(x: (string, nat), sorted: seq<(string, nat)>)
    requires ByCountDesc(sorted)
    ensures ByCountDesc(InsertByCount(x, sorted))
    ensures InsertByCount(x, sorted)[0] == x || InsertByCount(x, sorted)[0] == sorted[0]
  {
    if sorted == [] || x.1 >= sorted[0].1 {
    } else {
      InsertByCountSorted(x, sorted[1..]);
      var rest := InsertByCount(x, sorted[1..]);
      assert rest[0] == x || rest[0] == sorted[1];
      assert forall j :: 0 <= j < |rest| ==> sorted[0].1 >= rest[j].1 by {
        forall j | 0 <= j < |rest| ensures sorted[0].1 >= rest[j].1 {
          assert rest[j] in rest;
        }
      }
    }
  }

  /** `.sort((a, b) => b[1] - a[1])`: a stable sort by count, largest first. */
  function SortByCount(t: seq<(string, nat)>): (r: seq<(string, nat)>)
    ensures multiset(r) == multiset(t) && |r| == |t|
  {
    if t == [] then []
    else
      assert t == [t[0]] + t[1..];
      InsertByCount(t[0], SortByCount(t[1..]))
  }

  lemma {:induction false} SortByCountSorted(t: seq<(string, nat)>)
    ensures ByCountDesc(SortByCount(t))
  {
    if t != [] {
      SortByCountSorted(t[1..]);
      InsertByCountSorted(t[0], SortByCount(t[1..]));
    }
  }

  /** The symptom summary: the five most frequent labels, largest first. */
  function Summary(tally: seq<(string, nat)>): (s: seq<(string, nat)>)
    ensures |s| <= 5 && |s| == if |tally| < 5 then |tally| else 5
    ensures forall e :: e in s ==> e in tally
  {
    var sorted := SortByCount(tally);
    var s := sorted[..if |sorted| < 5 then |sorted| else 5];
    assert forall e :: e in s ==> e in multiset(sorted);
    s
  }

  /** The summary is ordered by count, and no entry left out of it has a
      larger count than any entry shown. */
  lemma SummaryIsTop(tally: seq<(string, nat)>)
    ensures ByCountDesc(Summary(tally))
    ensures forall e, s :: e in tally && e !in Summary(tally) && s in Summary(tally) ==> s.1 >= e.1
  {
    var sorted := SortByCount(tally);
    SortByCountSorted(tally);
    var n := if |sorted| < 5 then |sorted| else 5;
    assert Summary(tally) == sorted[..n];
    forall e, s | e in tally && e !in Summary(tally) && s in Summary(tally) ensures s.1 >= e.1 {
      assert e in multiset(sorted);
      var j :| 0 <= j < |sorted| && sorted[j] == e;
      var i :| 0 <= i < n && sorted[i] == s;
    }
  }
}
