/**
 The demo conversation of `DemoRotator` (src/components/demo-rotator.tsx):
 four question/answer pairs per language, each question prefixed with the
 property code, and a timer tick that advances the shown item cyclically
 and bumps the animation key. Timers and rendering are left out; a tick is
 one step of the state.
 */
module DemoRotator {
  import opened Strings

  datatype DemoItem = DemoItem(q: string, a: string)

  /** The question texts after the code prefix, and the answers. */
  const QuestionsHr: seq<string> := [
      "Imate li parking?",
      "Gdje je najbli\U{017E}a pla\U{017E}a?",
      "Koja je lozinka za Wi-Fi?",
      "Kada je check-in?"]
  const AnswersHr: seq<string> := [
      "Da \U{2014} besplatan parking je dostupan ispred objekta.",
      "Najbli\U{017E}a pla\U{017E}a je obi\U{010D}no unutar 5\U{2013}15 minuta pje\U{0161}ice. Ako mi ka\U{017E}e\U{0161} ulicu ili kvart, mogu predlo\U{017E}iti najbli\U{017E}u opciju.",
      "Wi-Fi lozinka je navedena u uputama objekta. Ako je ne vidi\U{0161}, napi\U{0161}i doma\U{0107}inu i provjerit \U{0107}e za tebe.",
      "Check-in je nakon 15:00. Ako dolazi\U{0161} ranije, napi\U{0161}i pa \U{0107}emo provjeriti mo\U{017E}e li raniji ulazak."]
  const QuestionsEn: seq<string> := [
      "Do you have parking?",
      "Where is the nearest beach?",
      "What\U{2019}s the Wi-Fi password?",
      "What time is check-in?"]
  const AnswersEn: seq<string> := [
      "Yes \U{2014} free parking is available in front of the property.",
      "Usually within a 5\U{2013}15 minute walk. If you tell me your street or area, I can suggest the closest option.",
      "It\U{2019}s listed in the property instructions. If you don\U{2019}t see it, message the host and they\U{2019}ll confirm it for you.",
      "Check-in is after 15:00. If you arrive earlier, message the host and we\U{2019}ll see what\U{2019}s possible."]

  /** The shown items: Croatian when `isHR`, English otherwise; every
      question starts with the code and ": ". */
  function Items(isHR: bool, code: string): (items: seq<DemoItem>)
    ensures |items| == 4
    ensures forall i :: 0 <= i < 4 ==> StartsWith(items[i].q, code + ": ")
    ensures forall i :: 0 <= i < 4 ==>
      items[i] == DemoItem(code + ": " + (if isHR then QuestionsHr else QuestionsEn)[i],
                           (if isHR then AnswersHr else AnswersEn)[i])
  {
    var qs := if isHR then QuestionsHr else QuestionsEn;
    var as_ := if isHR then AnswersHr else AnswersEn;
    seq(4, i requires 0 <= i < 4 => DemoItem(code + ": " + qs[i], as_[i]))
  }

  /** The code only changes the question's prefix: the rest of the question
      and the answer do not depend on it. */
  lemma CodeOnlyPrefixes(isHR: bool, c1: string, c2: string, i: int)
    requires 0 <= i < 4
    ensures Items(isHR, c1)[i].q[|c1| + 2..] == Items(isHR, c2)[i].q[|c2| + 2..]
    ensures Items(isHR, c1)[i].a == Items(isHR, c2)[i].a
  {
    var qs := if isHR then QuestionsHr else QuestionsEn;
    assert Items(isHR, c1)[i].q[|c1| + 2..] == qs[i];
    assert Items(isHR, c2)[i].q[|c2| + 2..] == qs[i];
  }

  /** `idx` and `animKey`. */
  datatype Rotator = Rotator(idx: nat, animKey: nat)

  const Initial := Rotator(0, 0)

  /** One interval tick over `n` items: the next item, wrapping after the
      last, and a fresh animation key. */
  function Tick(r: Rotator, n: nat): (r': Rotator)
    requires n > 0
    ensures r'.idx < n
    ensures r.idx + 1 < n ==> r'.idx == r.idx + 1
    ensures r.idx + 1 == n ==> r'.idx == 0
    ensures r'.animKey == r.animKey + 1
  {
    Rotator((r.idx + 1) % n, r.animKey + 1)
  }

  /** The state after `k` ticks. */
  function Ticks(r: Rotator, n: nat, k: nat): Rotator
    requires n > 0
    decreases k
  {
    if k == 0 then r else Tick(Ticks(r, n, k - 1), n)
  }

  /** Ticking `a` times and then `b` times is ticking `a + b` times. */
  lemma {:induction false} TicksCompose(r: Rotator, n: nat, a: nat, b: nat)
    requires n > 0
    ensures Ticks(Ticks(r, n, a), n, b) == Ticks(r, n, a + b)
    decreases b
  {
    if b > 0 {
      TicksCompose(r, n, a, b - 1);
    }
  }

  /** Within one cycle the shown item is `k` places further, wrapping once
      past the last item, and the animation key has grown by exactly `k`. */
  lemma {:induction false} TicksWithinCycle(r: Rotator, n: nat, k: nat)
    requires n > 0 && r.idx < n && k <= n
    ensures Ticks(r, n, k).idx == if r.idx + k < n then r.idx + k else r.idx + k - n
    ensures Ticks(r, n, k).animKey == r.animKey + k
    decreases k
  {
    if k > 0 {
      TicksWithinCycle(r, n, k - 1);
    }
  }

  /** After one full cycle the shown item is the one shown at the start,
      and from then on the items repeat with period `n`. */
  lemma CycleReturns(r: Rotator, n: nat, k: nat)
    requires n > 0 && r.idx < n
    ensures Ticks(r, n, n).idx == r.idx
    ensures Ticks(r, n, n + k).idx == Ticks(r, n, k).idx
  {
    TicksWithinCycle(r, n, n);
    TicksCompose(r, n, n, k);
    TicksCompose(r, n, 0, k);
    var after := Ticks(r, n, n);
    assert after == Rotator(r.idx, r.animKey + n);
    IndexOnlyDependsOnIndex(after, r, n, k);
  }

  /** The shown item after `k` ticks does not depend on the animation key. */
  lemma {:induction false} IndexOnlyDependsOnIndex(r1: Rotator, r2: Rotator, n: nat, k: nat)
    requires n > 0 && r1.idx == r2.idx
    ensures Ticks(r1, n, k).idx == Ticks(r2, n, k).idx
    decreases k
  {
    if k > 0 {
      IndexOnlyDependsOnIndex(r1, r2, n, k - 1);
    }
  }

  /** Item `j` is shown at some tick of the first cycle. */
  ghost predicate ShownInCycle(r: Rotator, n: nat, j: int)
    requires n > 0
  {
    exists k :: 0 <= k < n && Ticks(r, n, k).idx == j
  }

  /** Within one cycle every item is shown, and none twice. */
  lemma EachItemOncePerCycle(r: Rotator, n: nat)
    requires n > 0 && r.idx < n
    ensures forall j :: 0 <= j < n ==> ShownInCycle(r, n, j)
    ensures forall k1, k2 :: 0 <= k1 < n && 0 <= k2 < n && Ticks(r, n, k1).idx == Ticks(r, n, k2).idx ==> k1 == k2
  {
    forall j | 0 <= j < n
      ensures ShownInCycle(r, n, j)
    {
      var k := if j >= r.idx then j - r.idx else j + n - r.idx;
      TicksWithinCycle(r, n, k);
    }
    forall k1, k2 | 0 <= k1 < n && 0 <= k2 < n && Ticks(r, n, k1).idx == Ticks(r, n, k2).idx
      ensures k1 == k2
    {
      TicksWithinCycle(r, n, k1);
      TicksWithinCycle(r, n, k2);
    }
  }

  /** From the initial state the index always names one of the items. */
  lemma AlwaysInRange(isHR: bool, code: string, k: nat)
    ensures Ticks(Initial, |Items(isHR, code)|, k).idx < |Items(isHR, code)|
  {
    if k > 0 {
      assert Ticks(Initial, 4, k) == Tick(Ticks(Initial, 4, k - 1), 4);
    }
  }
}
