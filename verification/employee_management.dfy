/** The helpers of the Employer's employee list: the usage colour of the
    progress bar, the avatar initials, the remaining balance and adding a
    card to the list. */
module EmployeeManagement {
  import opened Text

  /** The four bar colours. */
  datatype Color = Grey | Red | Amber | Indigo

  function Hex(c: Color): string {
    match c
    case Grey => "#E5E7EB"
    case Red => "#EF4444"
    case Amber => "#F59E0B"
    case Indigo => "#4F46E5"
  }

  /** What `getUsageColor` returns. */
  datatype Usage = Usage(color: Color, percentage: real)

  /** `spent / budget * 100`, for a non-zero budget. */
  function Percent(spent: real, budget: real): real
    requires budget != 0.0
  {
    spent / budget * 100.0
  }

  /** `getUsageColor`: grey for a zero budget, otherwise red (capped at
      100) from 100 per cent up, amber from 75, indigo below. */
  function UsageColor(spent: real, budget: real): (u: Usage)
    ensures budget == 0.0 <==> u == Usage(Grey, 0.0)
    ensures u.percentage <= 100.0
    ensures budget != 0.0 ==> (u.color == Red <==> Percent(spent, budget) >= 100.0)
    ensures u.color == Red ==> u.percentage == 100.0
    ensures budget != 0.0 ==> (u.color == Amber <==> 75.0 <= Percent(spent, budget) < 100.0)
    ensures budget != 0.0 ==> (u.color == Indigo <==> Percent(spent, budget) < 75.0)
    ensures u.color == Amber || u.color == Indigo ==> u.percentage == Percent(spent, budget)
  {
    if budget == 0.0 then Usage(Grey, 0.0)
    else
      var p := Percent(spent, budget);
      if p >= 100.0 then Usage(Red, 100.0)
      else if p >= 75.0 then Usage(Amber, p)
      else Usage(Indigo, p)
  }

  /** How alarming a colour is. */
  function Severity(c: Color): nat {
    match c
    case Grey => 0
    case Indigo => 1
    case Amber => 2
    case Red => 3
  }

  /** With a positive budget the percentage is the spent share of it, so
      the thresholds read as plain comparisons: red from the whole budget,
      amber from three quarters of it. */
  lemma UsageThresholds(spent: real, budget: real)
    requires budget > 0.0
    ensures UsageColor(spent, budget).color == Red <==> spent >= budget
    ensures UsageColor(spent, budget).color == Amber <==> 3.0 * budget <= 4.0 * spent < 4.0 * budget
    ensures UsageColor(spent, budget).color == Indigo <==> 4.0 * spent < 3.0 * budget
  {
    var p := Percent(spent, budget);
    assert p * budget == spent * 100.0;
    assert p >= 100.0 <==> spent >= budget by {
      if p >= 100.0 {
        assert p * budget >= 100.0 * budget;
      }
      if spent >= budget {
        assert p * budget >= 100.0 * budget;
      }
    }
    assert p >= 75.0 <==> 4.0 * spent >= 3.0 * budget by {
      if p >= 75.0 {
        assert p * budget >= 75.0 * budget;
      }
      if 4.0 * spent >= 3.0 * budget {
        assert p * budget >= 75.0 * budget;
      }
    }
  }

  /** Spending more never makes the bar less alarming. */
  lemma UsageMonotone(spent: real, spent': real, budget: real)
    requires budget > 0.0 && spent <= spent'
    ensures Severity(UsageColor(spent, budget).color) <= Severity(UsageColor(spent', budget).color)
  {
    UsageThresholds(spent, budget);
    UsageThresholds(spent', budget);
  }

  /** What is left of the budget: nothing is left exactly when the spend
      has reached the budget. */
  function Remaining(budget: real, spent: real): (r: real)
    ensures r <= 0.0 <==> budget <= spent
    ensures r > 0.0 <==> spent < budget
  {
    budget - spent
  }

  /** Spending more leaves less, and by exactly the extra amount. */
  lemma RemainingMonotone(budget: real, spent: real, more: real)
    requires spent <= more
    ensures Remaining(budget, more) <= Remaining(budget, spent)
    ensures Remaining(budget, spent) - Remaining(budget, more) == more - spent
  {
  }

  /** The remaining figure is shown in red when nothing is left. */
  predicate RemainingRed(budget: real, spent: real) {
    Remaining(budget, spent) <= 0.0
  }

  /** With a positive budget, the remaining figure is red exactly when the
      bar is. */
  lemma RemainingRedIffBarRed(spent: real, budget: real)
    requires budget > 0.0
    ensures RemainingRed(budget, spent) <==> UsageColor(spent, budget).color == Red
  {
    UsageThresholds(spent, budget);
  }

  /** `getInitials`: the first character of every space-separated word,
      upper-cased, at most two of them. */
  function Initials(name: string): (r: string)
    ensures |r| <= 2
    ensures r == Take(ToUpper(WordStarts(name, true)), 2)
    ensures forall i :: 0 <= i < |r| ==> !IsLowerAscii(r[i])
  {
    HeadsOfSplit(name);
    Take(ToUpper(Heads(Split(name))), 2)
  }

  /** A word without spaces contributes its first character, and the scan
      goes on after it as after a non-space. */
  lemma {:induction false} WordStartsOfWord(w: string, rest: string, afterSpace: bool)
    requires w != [] && ' ' !in w
    ensures WordStarts(w + rest, afterSpace) == (if afterSpace then [w[0]] else []) + WordStarts(rest, false)
    decreases |w|
  {
    assert (w + rest)[1..] == w[1..] + rest;
    if |w| > 1 {
      assert w[1] in w;
      WordStartsOfWord(w[1..], rest, false);
    }
  }

  /** The usual case: a first and a last name give their two capitals. */
  lemma InitialsOfFullName(first: string, last: string)
    requires first != [] && last != [] && ' ' !in first && ' ' !in last
    ensures Initials(first + " " + last) == [UpperChar(first[0]), UpperChar(last[0])]
  {
    WordStartsOfWord(first, " " + last, true);
    assert (" " + last)[1..] == last;
    assert WordStarts(" " + last, false) == WordStarts(last, true);
    WordStartsOfWord(last, [], true);
    assert last + [] == last;
    assert first + " " + last == first + (" " + last);
    assert WordStarts(first + " " + last, true) == [first[0], last[0]];
  }

  /** `handleAddEmployee`: the new card goes at the end, the others stay as
      they were and in order. */
  function AddToList<T>(cards: seq<T>, card: T): (r: seq<T>)
    ensures |r| == |cards| + 1 && r[..|cards|] == cards && r[|cards|] == card
  {
    cards + [card]
  }
}
