/**
 The panel's two clicks: "Turn on" ends with a prepared enable and the key on
 screen, and only the confirming click takes it and sends it.
 */
module EnablePanel {
  import opened Base
  import opened Ceremonies

  /** What waits on the panel, and what it has handed over so far, oldest first. */
  datatype Desk = Desk(pending: Option<Enabled>, sent: seq<Enabled>)

  datatype Click = Prepares(e: Enabled) | Confirms

  function Clicked(d: Desk, c: Click): Desk {
    match c
    case Prepares(e) => d.(pending := Some(e))
    case Confirms => Desk(None, if d.pending.Some? then d.sent + [d.pending.value] else d.sent)
  }

  class Panel {
    var pending: Option<Enabled>
    ghost var sent: seq<Enabled>

    ghost function View(): Desk
      reads this
    {
      Desk(pending, sent)
    }

    constructor ()
      ensures View() == Played([])
    {
      pending := None;
      sent := [];
    }

    /** The turn-on ceremony has ended: nothing has been sent, and the key is on screen. */
    method Prepared(e: Enabled) returns (shown: string)
      modifies this
      ensures View() == Clicked(old(View()), Prepares(e)) && shown == e.shown
    {
      pending := Some(e);
      shown := e.shown;
    }

    /** Hands over what is pending and keeps no copy, so that no later click can send it again. */
    method ConfirmNewKey() returns (send: Option<Enabled>)
      modifies this
      ensures View() == Clicked(old(View()), Confirms)
      ensures send == old(pending) && sent == old(sent) + (if send.Some? then [send.value] else [])
    {
      send := pending;
      pending := None;
      if send.Some? {
        sent := sent + [send.value];
      }
    }
  }

  /** The panel after some clicks. */
  function Played(clicks: seq<Click>): Desk {
    if clicks == [] then Desk(None, []) else Clicked(Played(clicks[..|clicks| - 1]), clicks[|clicks| - 1])
  }

  /** A new panel has been played nothing, and each of its methods plays one click more. */
  lemma OneClickMore(clicks: seq<Click>, c: Click)
    ensures Played(clicks + [c]) == Clicked(Played(clicks), c)
  {
    assert (clicks + [c])[..|clicks|] == clicks;
  }

  /** What is prepared last is what confirming sends, and confirming again sends nothing. */
  lemma ConfirmingSends(clicks: seq<Click>, e: Enabled)
    ensures var once := clicks + [Prepares(e)] + [Confirms];
      && Played(once) == Desk(None, Played(clicks).sent + [e])
      && Played(once + [Confirms]) == Played(once)
  {
    OneClickMore(clicks, Prepares(e));
    OneClickMore(clicks + [Prepares(e)], Confirms);
    OneClickMore(clicks + [Prepares(e)] + [Confirms], Confirms);
  }

  /** What the ceremonies have prepared, oldest first. */
  function Made(clicks: seq<Click>): seq<Enabled> {
    if clicks == [] then []
    else
      var before, last := Made(clicks[..|clicks| - 1]), clicks[|clicks| - 1];
      if last.Prepares? then before + [last.e] else before
  }

  function Waiting(d: Desk): multiset<Enabled> {
    if d.pending.Some? then multiset{d.pending.value} else multiset{}
  }

  /** However often it is clicked, what is sent and what waits was prepared, each as often at most. */
  lemma {:induction false} SentAtMostOnce(clicks: seq<Click>)
    ensures var d := Played(clicks); multiset(d.sent) + Waiting(d) <= multiset(Made(clicks))
  {
    if clicks != [] {
      SentAtMostOnce(clicks[..|clicks| - 1]);
    }
  }

  /** So enables that all differ, as those of fresh keys do, are sent once each at most, and not again while waiting. */
  lemma DistinctAreSentOnce(clicks: seq<Click>)
    requires forall i, j :: 0 <= i < j < |Made(clicks)| ==> Made(clicks)[i] != Made(clicks)[j]
    ensures var d := Played(clicks);
      && (forall i, j :: 0 <= i < j < |d.sent| ==> d.sent[i] != d.sent[j])
      && (forall e :: e in d.sent ==> e in Made(clicks))
      && (d.pending.Some? ==> d.pending.value in Made(clicks) && d.pending.value !in d.sent)
  {
    var d, made := Played(clicks), Made(clicks);
    SentAtMostOnce(clicks);
    assert multiset(d.sent) <= multiset(made);
    SubBagIsDistinct(d.sent, made);
    if d.pending.Some? {
      DistinctCounts(made);
      assert multiset(made)[d.pending.value] >= multiset(d.sent)[d.pending.value] + 1;
    }
  }

  lemma SubBagIsDistinct(some: seq<Enabled>, all: seq<Enabled>)
    requires multiset(some) <= multiset(all)
    requires forall i, j :: 0 <= i < j < |all| ==> all[i] != all[j]
    ensures forall i, j :: 0 <= i < j < |some| ==> some[i] != some[j]
    ensures forall e :: e in some ==> e in all
  {
    DistinctCounts(all);
    forall i, j | 0 <= i < j < |some| ensures some[i] != some[j] {
      assert multiset(some)[some[i]] <= multiset(all)[some[i]] <= 1;
      if some[i] == some[j] { CountsTwice(some, i, j); }
    }
    forall e | e in some ensures e in all { assert e in multiset(some); }
  }

  lemma {:induction false} DistinctCounts(s: seq<Enabled>)
    requires forall i, j :: 0 <= i < j < |s| ==> s[i] != s[j]
    ensures forall e :: multiset(s)[e] <= 1
  {
    if s != [] {
      DistinctCounts(s[1..]);
      assert s == [s[0]] + s[1..];
      assert s[0] !in multiset(s[1..]);
    }
  }

  lemma CountsTwice(s: seq<Enabled>, i: nat, j: nat)
    requires i < j < |s| && s[i] == s[j]
    ensures multiset(s)[s[i]] >= 2
  {
    assert s == s[..i] + [s[i]] + s[i + 1..j] + [s[j]] + s[j + 1..];
  }
}
