/** The glorification counter (`tasbih-counter.tsx`): three counters with targets
    33, 33 and 34; pressing a counter advances it until it reaches its target,
    and completing the last of the three shows a congratulation. */
module Tasbih {
  import opened Common

  datatype TasbihType = SubhanAllah | Alhamdulillah | AllahuAkbar

  /** The `TasbihState` record of one counter. */
  datatype Counter = Counter(count: nat, total: nat, completed: bool)

  /** The target of each counter. */
  function Target(t: TasbihType): nat {
    match t
    case SubhanAllah => 33
    case Alhamdulillah => 33
    case AllahuAkbar => 34
  }

  function FreshCounter(t: TasbihType): Counter {
    Counter(0, Target(t), false)
  }

  /** The state the component starts in and returns to on reset. */
  function InitialCounters(): (counters: map<TasbihType, Counter>)
    ensures WellFormed(counters)
    ensures forall t :: counters[t] == FreshCounter(t)
  {
    var counters := map[SubhanAllah := FreshCounter(SubhanAllah),
                        Alhamdulillah := FreshCounter(Alhamdulillah),
                        AllahuAkbar := FreshCounter(AllahuAkbar)];
    assert forall t :: t in counters && counters[t] == FreshCounter(t) by {
      forall t ensures t in counters && counters[t] == FreshCounter(t) {
        EveryType(t);
      }
    }
    counters
  }

  /** The count never passes the target, and the counter is completed exactly
      when the count has reached it. */
  predicate Consistent(c: Counter) {
    0 < c.total && c.count <= c.total && (c.completed <==> c.count == c.total)
  }

  /** All three counters are present, have their fixed targets and are consistent. */
  predicate WellFormed(counters: map<TasbihType, Counter>) {
    (forall t :: t in counters) &&
    (forall t :: counters[t].total == Target(t) && Consistent(counters[t]))
  }

  predicate AllCompleted(counters: map<TasbihType, Counter>)
    requires forall t :: t in counters
  {
    counters[SubhanAllah].completed && counters[Alhamdulillah].completed && counters[AllahuAkbar].completed
  }

  /** The new count and completed flag after one press of a counter that is not
      completed yet: the count grows by one but never past the target. */
  function Press(c: Counter): (r: Counter)
    ensures r.total == c.total
    ensures r.count == if c.count + 1 <= c.total then c.count + 1 else c.total
    ensures r.completed <==> c.count + 1 >= c.total
  {
    var newCount := c.count + 1;
    var completed := newCount >= c.total;
    Counter(if completed then c.total else newCount, c.total, completed)
  }

  /** On a consistent counter that is not completed, a press adds exactly one and
      keeps the counter consistent. */
  lemma PressKeepsConsistent(c: Counter)
    requires Consistent(c) && !c.completed
    ensures Consistent(Press(c)) && Press(c).count == c.count + 1
  {
  }

  /** Whether the other two counters were completed before this press, as the
      handler's nested conditional reads them. */
  function OthersCompleted(counters: map<TasbihType, Counter>, t: TasbihType): bool
    requires forall u :: u in counters
  {
    if t == AllahuAkbar then counters[SubhanAllah].completed && counters[Alhamdulillah].completed
    else if t == Alhamdulillah then counters[SubhanAllah].completed && counters[AllahuAkbar].completed
    else counters[Alhamdulillah].completed && counters[AllahuAkbar].completed
  }

  /** The handler's conditional asks exactly whether every other counter is
      completed. */
  lemma OthersCompletedMeaning(counters: map<TasbihType, Counter>, t: TasbihType)
    requires forall u :: u in counters
    ensures OthersCompleted(counters, t) <==> forall u :: u != t ==> counters[u].completed
  {
    if OthersCompleted(counters, t) {
      forall u | u != t ensures counters[u].completed {
        EveryType(u);
        EveryType(t);
      }
    }
  }

  lemma EveryType(t: TasbihType)
    ensures t == SubhanAllah || t == Alhamdulillah || t == AllahuAkbar
  {
    match t
    case SubhanAllah =>
    case Alhamdulillah =>
    case AllahuAkbar =>
  }

  /** Sum of the three counts, the number shown in the centre of the ring. */
  function CountSum(counters: map<TasbihType, Counter>): nat
    requires forall t :: t in counters
  {
    counters[SubhanAllah].count + counters[Alhamdulillah].count + counters[AllahuAkbar].count
  }

  /** Sum of the three targets, the number shown after the slash. */
  function TargetSum(counters: map<TasbihType, Counter>): nat
    requires forall t :: t in counters
  {
    counters[SubhanAllah].total + counters[Alhamdulillah].total + counters[AllahuAkbar].total
  }

  /** The shown total never passes the shown target of 100, and reaches it
      exactly when every counter is completed. */
  lemma TotalBounded(counters: map<TasbihType, Counter>)
    requires WellFormed(counters)
    ensures TargetSum(counters) == 100
    ensures CountSum(counters) <= 100
    ensures CountSum(counters) == 100 <==> AllCompleted(counters)
  {
    assert Consistent(counters[SubhanAllah]) && Consistent(counters[Alhamdulillah]) && Consistent(counters[AllahuAkbar]);
    assert counters[SubhanAllah].total == 33 && counters[Alhamdulillah].total == 33 && counters[AllahuAkbar].total == 34;
  }

  class TasbihCounter {
    var counters: map<TasbihType, Counter>
    var showCongrats: bool
    /** The button highlighted for 300 ms after it is pressed. */
    var activeButton: Option<TasbihType>

    /** The congratulation is only ever shown once all three are completed. */
    ghost predicate Valid()
      reads this
    {
      WellFormed(counters) && (showCongrats ==> AllCompleted(counters))
    }

    constructor ()
      ensures Valid()
      ensures counters == InitialCounters() && !showCongrats && activeButton == None
    {
      counters := InitialCounters();
      showCongrats := false;
      activeButton := None;
    }

    /** `handleTasbih(t)`: highlight the button; unless the counter is already
        completed, press it, and show the congratulation when this press
        completes it while the other two were already completed. */
    method HandleTasbih(t: TasbihType)
      requires Valid()
      modifies this
      ensures Valid()
      ensures activeButton == Some(t)
      ensures old(counters)[t].completed ==>
        counters == old(counters) && showCongrats == old(showCongrats)
      ensures !old(counters)[t].completed ==>
        counters == old(counters)[t := Press(old(counters)[t])] &&
        counters[t].count == old(counters)[t].count + 1
      ensures forall u :: u != t ==> counters[u] == old(counters)[u]
      ensures showCongrats <==>
        old(showCongrats) ||
        (!old(counters)[t].completed && counters[t].completed && OthersCompleted(old(counters), t))
    {
      activeButton := Some(t);
      if counters[t].completed {
        return;
      }
      var before := counters;
      PressKeepsConsistent(counters[t]);
      var pressed := Press(counters[t]);
      counters := counters[t := pressed];
      if pressed.completed {
        var allCompleted := OthersCompleted(before, t);
        if allCompleted {
          showCongrats := true;
        }
      }
    }

    /** The 300 ms timer clears the highlighted button. */
    method ReleaseButton()
      requires Valid()
      modifies this
      ensures Valid() && activeButton == None
      ensures counters == old(counters) && showCongrats == old(showCongrats)
    {
      activeButton := None;
    }

    /** The five-second timer hides the congratulation. */
    method HideCongrats()
      requires Valid()
      modifies this
      ensures Valid() && !showCongrats
      ensures counters == old(counters) && activeButton == old(activeButton)
    {
      showCongrats := false;
    }

    /** `resetTasbih()`: every counter back to zero, the congratulation hidden. */
    method ResetTasbih()
      requires Valid()
      modifies this
      ensures Valid()
      ensures counters == InitialCounters() && !showCongrats && activeButton == old(activeButton)
      ensures CountSum(counters) == 0
    {
      counters := InitialCounters();
      showCongrats := false;
    }

    /** The number in the centre of the ring. */
    function GrandTotal(): (n: nat)
      reads this
      requires Valid()
      ensures n == CountSum(counters)
      ensures n <= TargetSum(counters) == 100
      ensures n == 100 <==> AllCompleted(counters)
    {
      TotalBounded(counters);
      CountSum(counters)
    }
  }
}
