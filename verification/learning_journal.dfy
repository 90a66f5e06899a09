/**
 The learning journal's form logic: editing one field of the current
 entry, saving it (guarded on a topic and a lesson), and the two display
 rules that depend on the form — which energy buttons are lit and whether
 the save button is disabled. Today's date and the clock are inputs.
 */
module LearningJournal {
  import opened Values

  type Form = map<string, Value>

  datatype View = New | History

  datatype Journal = Journal(entries: seq<Form>, form: Form, view: View)

  const TextFields: seq<string> := ["topic", "learned", "application", "questions", "nextSteps"]

  const DefaultEnergy := 3.0

  /** An empty form dated `today`. */
  function BlankForm(today: string): (f: Form)
    ensures forall k | k in f :: k == "date" || k == "energyLevel" || k in TextFields
    ensures "date" in f && f["date"] == Str(today)
    ensures "energyLevel" in f && f["energyLevel"] == Num(DefaultEnergy)
    ensures forall i | 0 <= i < |TextFields| :: TextFields[i] in f && f[TextFields[i]] == Str("")
  {
    map["date" := Str(today), "topic" := Str(""), "learned" := Str(""), "application" := Str(""),
        "questions" := Str(""), "nextSteps" := Str(""), "energyLevel" := Num(DefaultEnergy)]
  }

  /** `handleChange(field, value)`. */
  function HandleChange(j: Journal, field: string, value: Value): (r: Journal)
    ensures r.entries == j.entries && r.view == j.view
    ensures field in r.form && r.form[field] == value
    ensures r.form.Keys == j.form.Keys + {field}
    ensures forall f | f in j.form && f != field :: r.form[f] == j.form[f]
  {
    j.(form := j.form[field := value])
  }

  /** The save guard: a truthy topic and a truthy lesson. */
  predicate CanSave(form: Form) {
    TruthyOpt(Get(Obj(form), "topic")) && TruthyOpt(Get(Obj(form), "learned"))
  }

  /** `saveEntry()`: prepend the form stamped with the clock as its id,
      reset the form and switch to the history view; nothing when the guard
      fails. */
  function SaveEntry(j: Journal, now: int, today: string): (r: Journal)
    ensures !CanSave(j.form) ==> r == j
    ensures CanSave(j.form) ==>
              && |r.entries| == |j.entries| + 1
              && r.entries[1..] == j.entries
              && r.entries[0] == j.form["id" := Num(now as real)]
              && r.form == BlankForm(today)
              && r.view == History
  {
    if CanSave(j.form) then
      Journal([j.form["id" := Num(now as real)]] + j.entries, BlankForm(today), History)
    else j
  }

  /** The save button's `disabled` attribute. */
  predicate SaveDisabled(form: Form) {
    !TruthyOpt(Get(Obj(form), "topic")) || !TruthyOpt(Get(Obj(form), "learned"))
  }

  /** The button is disabled exactly when pressing it would do nothing. */
  lemma SaveDisabledIffNoEffect(j: Journal, now: int, today: string)
    ensures SaveDisabled(j.form) <==> SaveEntry(j, now, today) == j
  {
    if !SaveDisabled(j.form) {
      assert |SaveEntry(j, now, today).entries| != |j.entries|;
    }
  }

  /** A saved form cannot be saved again as it stands: the fresh form has no
      topic. */
  lemma SavedFormIsBlank(j: Journal, now: int, today: string)
    requires CanSave(j.form)
    ensures SaveDisabled(SaveEntry(j, now, today).form)
  {
    var f := SaveEntry(j, now, today).form;
    assert f["topic"] == Str("");
  }

  /** Energy button `n` is lit when `n` does not exceed the level. */
  predicate Highlighted(n: int, level: real) {
    n as real <= level
  }

  /** The five energy buttons, lit or not. */
  function EnergyButtons(level: real): (lit: seq<bool>)
    ensures |lit| == 5
    ensures forall i | 0 <= i < 5 :: lit[i] == Highlighted(i + 1, level)
  {
    seq(5, i => Highlighted(i + 1, level))
  }

  /** The lit buttons are a prefix: a lit button has every lower button
      lit. */
  lemma LitButtonsArePrefix(level: real, i: int, k: int)
    requires 0 <= k <= i < 5 && EnergyButtons(level)[i]
    ensures EnergyButtons(level)[k]
  {
  }

  /** Pressing energy button `n` leaves exactly buttons 1 to `n` lit. */
  lemma PressingEnergyButton(j: Journal, n: int)
    requires 1 <= n <= 5
    ensures var r := HandleChange(j, "energyLevel", Num(n as real));
      && r.form["energyLevel"].Num?
      && forall i | 0 <= i < 5 :: EnergyButtons(r.form["energyLevel"].n)[i] <==> i < n
  {
  }
}
