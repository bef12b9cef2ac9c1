/**
 * The practice screen (`app/Practise/page.tsx`): a question index moved by
 * Next and Back, and the tab bar that picks what is rendered.
 */
module Practise {

  /** Next: one step forward unless already on the last question. */
  function NextIndex(i: int, count: nat): (r: int)
    ensures i < count - 1 ==> r == i + 1
    ensures i >= count - 1 ==> r == i
  {
    if i < count - 1 then i + 1 else i
  }

  /** Back: one step back unless already on the first question. */
  function BackIndex(i: int): (r: int)
    ensures i > 0 ==> r == i - 1
    ensures i <= 0 ==> r == i
  {
    if i > 0 then i - 1 else i
  }

  datatype Move = Next | Back

  /** The index after a run of button presses. */
  function Replay(i: int, count: nat, moves: seq<Move>): int
    decreases |moves|
  {
    if moves == [] then i
    else
      var j := if moves[0].Next? then NextIndex(i, count) else BackIndex(i);
      Replay(j, count, moves[1..])
  }

  /** From any index on a question, any run of presses keeps the index on a question. */
  lemma {:induction false} ReplayStaysInRange(i: int, count: nat, moves: seq<Move>)
    requires count > 0 && 0 <= i < count
    ensures 0 <= Replay(i, count, moves) < count
    decreases |moves|
  {
    if moves != [] {
      var j := if moves[0].Next? then NextIndex(i, count) else BackIndex(i);
      ReplayStaysInRange(j, count, moves[1..]);
    }
  }

  /** The index the screen starts on is a valid one for any non-empty question list. */
  lemma InitialIndexInRange(count: nat, moves: seq<Move>)
    requires count > 0
    ensures 0 <= Replay(0, count, moves) < count
  {
    ReplayStaysInRange(0, count, moves);
  }

  /** Next then Back is the identity on every index that is not the last; Back then Next on every one that is not the first. */
  lemma NextThenBack(i: int, count: nat)
    ensures 0 <= i < count - 1 ==> BackIndex(NextIndex(i, count)) == i
    ensures 0 < i < count ==> NextIndex(BackIndex(i), count) == i
    ensures NextIndex(count - 1, count) == count - 1 && BackIndex(0) == 0
  {
  }

  /** ASCII lower-casing of one character. */
  function LowerChar(c: char): char {
    if 'A' <= c <= 'Z' then (c as int + 32) as char else c
  }

  /** `toLowerCase` on the tab labels, which are ASCII. */
  function ToLower(s: string): (r: string)
    ensures |r| == |s|
    ensures forall k :: 0 <= k < |s| ==> r[k] == LowerChar(s[k])
  {
    seq(|s|, k requires 0 <= k < |s| => LowerChar(s[k]))
  }

  const TabLabels: seq<string> := ["Practice", "Quizzes", "Assigned"]

  /** What the screen shows below the tab bar. */
  datatype Content = PracticeView | QuizzesView | AssignedView | NoContent

  /** `renderContent`: one view per known key, nothing for any other. */
  function Render(activeTab: string): (c: Content)
    ensures c == NoContent <==> activeTab !in {"practice", "quizzes", "assigned"}
  {
    if activeTab == "practice" then PracticeView
    else if activeTab == "quizzes" then QuizzesView
    else if activeTab == "assigned" then AssignedView
    else NoContent
  }

  /** The tab that a click on `tab` selects, and whether `tab`'s button is highlighted. */
  function SelectTab(tab: string): string {
    ToLower(tab)
  }

  predicate Highlighted(activeTab: string, tab: string) {
    activeTab == ToLower(tab)
  }

  /** The keys the three labels lower-case to. */
  lemma LowerPractice()
    ensures ToLower("Practice") == "practice"
  {
    var r := ToLower("Practice");
    assert r[0] == 'p';
  }

  lemma LowerQuizzes()
    ensures ToLower("Quizzes") == "quizzes"
  {
    var r := ToLower("Quizzes");
    assert r[0] == 'q';
  }

  lemma LowerAssigned()
    ensures ToLower("Assigned") == "assigned"
  {
    var r := ToLower("Assigned");
    assert r[0] == 'a';
  }

  /**
   * Clicking any of the three labels selects its lower-cased key, renders a
   * view, and highlights exactly the clicked button; the initial key
   * `practice` is the first label's.
   */
  lemma {:induction false} TabsSelectThemselves(k: nat)
    requires k < |TabLabels|
    ensures Render(SelectTab(TabLabels[k])) != NoContent
    ensures forall m :: 0 <= m < |TabLabels| ==> (Highlighted(SelectTab(TabLabels[k]), TabLabels[m]) <==> m == k)
    ensures SelectTab(TabLabels[0]) == "practice"
  {
    LowerPractice();
    LowerQuizzes();
    LowerAssigned();
  }
}
