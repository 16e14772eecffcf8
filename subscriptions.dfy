/**
 * The inbox scan of scripts/process-subscriptions.js. Every unseen message whose
 * subject asks to subscribe or to cancel updates the subscriber list held in
 * memory and is flagged \Seen; the list is written back once, at the end of the
 * run, when at least one change was counted.
 *
 * The mail client is replaced by its results: the envelopes of the unseen
 * messages come in as a sequence, and the uids flagged \Seen go out as one.
 */
module Subscriptions {
  import opened Wrappers
  import opened Strings

  type Uid = nat

  /**
   * What the scan reads of a message: its uid, its subject (absent for no
   * subject) and the addresses of its `from` list, each of which may lack an
   * address. A missing `from` list reads like an empty one.
   */
  datatype Envelope = Envelope(uid: Uid, subject: Option<string>, from: seq<Option<string>>)

  /**
   * A record of the subscriber list. `active` is three-valued because legacy
   * records may lack the field; the timestamps are ISO strings and may be absent.
   */
  datatype Subscriber = Subscriber(
    email: string,
    active: Option<bool>,
    subscribedAt: Option<string>,
    unsubscribedAt: Option<string>)

  /** The branch a message takes in the loop body. */
  datatype Command = Subscribe | Unsubscribe | Ignore

  /** The state the loop threads from one message to the next. */
  datatype Scan = Scan(subscribers: seq<Subscriber>, changes: nat, marked: seq<Uid>)

  /** The subject as the scan compares it: upper-cased and trimmed, "" when absent. */
  function NormalizedSubject(e: Envelope): string {
    Trim(Upper(e.subject.GetOr("")))
  }

  /** The lower-cased first sender address, or None when it is absent or empty. */
  function SenderAddress(e: Envelope): (r: Option<string>)
    ensures r.Some? ==> r.value != "" && |e.from| > 0 && e.from[0].Some? && r.value == Lower(e.from[0].value)
    ensures r.None? <==> |e.from| == 0 || e.from[0] == None || e.from[0] == Some("")
  {
    if |e.from| == 0 || e.from[0].None? then None
    else
      var addr := Lower(e.from[0].value);
      if addr == "" then None else Some(addr)
  }

  /** The test of line 41: a subscribe keyword, Spanish or English. */
  predicate AsksToSubscribe(subject: string) {
    Contains(subject, "SUSCRIBIR") || Contains(subject, "SUBSCRIBE")
  }

  /** The test of line 60: a cancel keyword, Spanish or English. */
  predicate AsksToCancel(subject: string) {
    Contains(subject, "CANCELAR") || Contains(subject, "UNSUBSCRIBE")
  }

  /** First match: the subscribe keywords are tested before the cancel keywords. */
  function Classify(subject: string): Command {
    if AsksToSubscribe(subject) then Subscribe
    else if AsksToCancel(subject) then Unsubscribe
    else Ignore
  }

  /** `Array.prototype.find` by exact email: the index of the first record with that email. */
  function Find(subs: seq<Subscriber>, addr: string): (r: Option<nat>)
    ensures r.Some? ==> r.value < |subs| && subs[r.value].email == addr
    ensures r.Some? ==> forall j :: 0 <= j < r.value ==> subs[j].email != addr
    ensures r.None? <==> forall j :: 0 <= j < |subs| ==> subs[j].email != addr
  {
    if |subs| == 0 then None
    else if subs[0].email == addr then Some(0)
    else
      match Find(subs[1..], addr)
      case None => None
      case Some(i) => Some(i + 1)
  }

  /** JavaScript truthiness of the `active` field: only `true` is truthy. */
  predicate Truthy(active: Option<bool>) {
    active == Some(true)
  }

  /** The record pushed for an address seen for the first time. */
  function NewSubscriber(addr: string, now: string): Subscriber {
    Subscriber(addr, Some(true), Some(now), None)
  }

  /**
   * The subscribe branch on the list: push a new record, reactivate the first
   * record with the address when it is not active, or do nothing; the number
   * is what it adds to the change counter.
   */
  function ApplySubscribe(subs: seq<Subscriber>, addr: string, now: string): (seq<Subscriber>, nat) {
    match Find(subs, addr)
    case None => (subs + [NewSubscriber(addr, now)], 1)
    case Some(i) =>
      if Truthy(subs[i].active) then (subs, 0)
      else (subs[i := subs[i].(active := Some(true))], 1)
  }

  /**
   * The cancel branch on the list: deactivate and stamp the first record with
   * the address, whatever its `active` was, or do nothing for an unknown address.
   */
  function ApplyUnsubscribe(subs: seq<Subscriber>, addr: string, now: string): (seq<Subscriber>, nat) {
    match Find(subs, addr)
    case None => (subs, 0)
    case Some(i) => (subs[i := subs[i].(active := Some(false), unsubscribedAt := Some(now))], 1)
  }

  /**
   * The branch taken for a classified message from `addr`: a command updates
   * the list, adds its number to the counter and marks the message.
   */
  function Apply(s: Scan, cmd: Command, addr: string, uid: Uid, now: string): Scan {
    match cmd
    case Ignore => s
    case Subscribe =>
      var (subs, delta) := ApplySubscribe(s.subscribers, addr, now);
      Scan(subs, s.changes + delta, s.marked + [uid])
    case Unsubscribe =>
      var (subs, delta) := ApplyUnsubscribe(s.subscribers, addr, now);
      Scan(subs, s.changes + delta, s.marked + [uid])
  }

  /** The effect of one message on the scan state (one pass of the loop body). */
  function Step(s: Scan, e: Envelope, now: string): Scan {
    match SenderAddress(e)
    case None => s
    case Some(addr) => Apply(s, Classify(NormalizedSubject(e)), addr, e.uid, now)
  }

  /** The scan state after the messages of `inbox`, taken in order. */
  function Fold(s: Scan, inbox: seq<Envelope>, now: string): Scan
    decreases |inbox|
  {
    if inbox == [] then s
    else Step(Fold(s, inbox[..|inbox| - 1], now), inbox[|inbox| - 1], now)
  }

  /** A whole run: the counter starts at 0 and nothing is marked yet. */
  function Run(list: seq<Subscriber>, inbox: seq<Envelope>, now: string): Scan {
    Fold(Scan(list, 0, []), inbox, now)
  }

  /** No two records share an email. */
  predicate UniqueEmails(subs: seq<Subscriber>) {
    forall i, j :: 0 <= i < j < |subs| ==> subs[i].email != subs[j].email
  }

  /** A message that takes one of the two command branches. */
  predicate IsCommand(e: Envelope) {
    SenderAddress(e).Some? && Classify(NormalizedSubject(e)) != Ignore
  }

  /** Reference definition of the uids a run marks: those of the command messages, in order. */
  function CommandUids(inbox: seq<Envelope>): seq<Uid>
    decreases |inbox|
  {
    if inbox == [] then []
    else
      var last := inbox[|inbox| - 1];
      CommandUids(inbox[..|inbox| - 1]) + if IsCommand(last) then [last.uid] else []
  }

  /**
   * The loop of `main` as an object: the list it mutates in place, the change
   * counter and the uids it has flagged \Seen so far.
   */
  class Scanner {
    var subscribers: seq<Subscriber>
    var changes: nat
    var marked: seq<Uid>

    function State(): Scan
      reads this
    {
      Scan(subscribers, changes, marked)
    }

    constructor (list: seq<Subscriber>)
      ensures State() == Scan(list, 0, [])
    {
      subscribers := list;
      changes := 0;
      marked := [];
    }

    /** One message: normalise, skip without sender, classify, update, mark. */
    method Process(e: Envelope, now: string)
      modifies this
      ensures State() == Step(old(State()), e, now)
    {
      var subject := Trim(Upper(e.subject.GetOr("")));
      var fromAddr := SenderAddress(e);
      if fromAddr.None? {
        return;
      }
      assert subject == NormalizedSubject(e);
      Dispatch(subject, fromAddr.value, e.uid, now);
    }

    /** The keyword tests of lines 41 and 60 and the branch they select, for a message with a sender. */
    method Dispatch(subject: string, addr: string, uid: Uid, now: string)
      modifies this
      ensures State() == Apply(old(State()), Classify(subject), addr, uid, now)
    {
      if AsksToSubscribe(subject) {
        SubscribeRecord(addr, now);
        marked := marked + [uid];
      } else if AsksToCancel(subject) {
        UnsubscribeRecord(addr, now);
        marked := marked + [uid];
      }
    }

    /** The subscribe branch on the list and the counter (lines 42-57). */
    method SubscribeRecord(addr: string, now: string)
      modifies this
      ensures (subscribers, changes - old(changes)) == ApplySubscribe(old(subscribers), addr, now)
      ensures changes >= old(changes) && marked == old(marked)
    {
      var found := Find(subscribers, addr);
      if found.None? {
        subscribers := subscribers + [NewSubscriber(addr, now)];
        changes := changes + 1;
      } else if !Truthy(subscribers[found.value].active) {
        var i := found.value;
        subscribers := subscribers[i := subscribers[i].(active := Some(true))];
        changes := changes + 1;
      }
    }

    /** The cancel branch on the list and the counter (lines 61-67). */
    method UnsubscribeRecord(addr: string, now: string)
      modifies this
      ensures (subscribers, changes - old(changes)) == ApplyUnsubscribe(old(subscribers), addr, now)
      ensures changes >= old(changes) && marked == old(marked)
    {
      var found := Find(subscribers, addr);
      if found.Some? {
        var i := found.value;
        subscribers := subscribers[i := subscribers[i].(active := Some(false), unsubscribedAt := Some(now))];
        changes := changes + 1;
      }
    }
  }

  /**
   * The body of `main` after loading: scan every unseen message, then hand the
   * list to be written exactly when the change counter is positive.
   */
  method Reconcile(list: seq<Subscriber>, inbox: seq<Envelope>, now: string)
    returns (subscribers: seq<Subscriber>, changes: nat, marked: seq<Uid>, written: Option<seq<Subscriber>>)
    ensures Scan(subscribers, changes, marked) == Run(list, inbox, now)
    ensures written == if changes > 0 then Some(subscribers) else None
    ensures marked == CommandUids(inbox)
    ensures changes == 0 ==> subscribers == list
    ensures UniqueEmails(list) ==> UniqueEmails(subscribers)
    ensures |list| <= |subscribers| <= |list| + |inbox|
  {
    var scanner := new Scanner(list);
    for k := 0 to |inbox|
      invariant scanner.State() == Fold(Scan(list, 0, []), inbox[..k], now)
    {
      assert inbox[..k + 1][..k] == inbox[..k];
      scanner.Process(inbox[k], now);
    }
    assert inbox[..|inbox|] == inbox;
    subscribers, changes, marked := scanner.subscribers, scanner.changes, scanner.marked;
    written := if changes > 0 then Some(subscribers) else None;
    FoldMarked(Scan(list, 0, []), inbox, now);
    FoldUnchangedCounter(Scan(list, 0, []), inbox, now);
    if UniqueEmails(list) {
      FoldUnique(Scan(list, 0, []), inbox, now);
    }
    FoldGrowth(Scan(list, 0, []), inbox, now);
  }

  // ---------------------------------------------------------------- classification

  /** "UNSUBSCRIBE" contains "SUBSCRIBE", so an English cancel request takes the subscribe branch. */
  lemma UnsubscribeWordSubscribes(subject: string)
    requires Contains(subject, "UNSUBSCRIBE")
    ensures Classify(subject) == Subscribe
  {
    ContainsSuffix(subject, "UNSUBSCRIBE", 2);
    assert "UNSUBSCRIBE"[2..] == "SUBSCRIBE";
  }

  /**
   * A message is a cancel request exactly when its subject holds "CANCELAR" and
   * neither subscribe keyword: the "UNSUBSCRIBE" test can never decide the branch.
   */
  lemma ClassifyUnsubscribe(subject: string)
    ensures Classify(subject) == Unsubscribe <==>
      Contains(subject, "CANCELAR") && !Contains(subject, "SUSCRIBIR") && !Contains(subject, "SUBSCRIBE")
  {
    if Contains(subject, "UNSUBSCRIBE") {
      UnsubscribeWordSubscribes(subject);
    }
  }

  /** Leading or trailing white space in the subject never changes its branch. */
  lemma ClassifyTrim(subject: string)
    ensures Classify(Trim(subject)) == Classify(subject)
  {
    KeywordsNoSpace();
    ContainsTrim(subject, "SUSCRIBIR");
    ContainsTrim(subject, "SUBSCRIBE");
    ContainsTrim(subject, "CANCELAR");
    ContainsTrim(subject, "UNSUBSCRIBE");
  }

  lemma KeywordsNoSpace()
    ensures NoSpace("SUSCRIBIR") && NoSpace("SUBSCRIBE") && NoSpace("CANCELAR") && NoSpace("UNSUBSCRIBE")
  {
  }

  // ---------------------------------------------------------------- one message

  /** A message without a sender address changes nothing and is not marked. */
  lemma StepWithoutSender(s: Scan, e: Envelope, now: string)
    requires |e.from| == 0 || e.from[0] == None || e.from[0] == Some("")
    ensures Step(s, e, now) == s
  {
  }

  /** A message matching neither keyword set changes nothing and is not marked. */
  lemma StepIgnored(s: Scan, e: Envelope, now: string)
    requires Classify(NormalizedSubject(e)) == Ignore
    ensures Step(s, e, now) == s
  {
  }

  /** SUBSCRIBE from an unknown address appends one active record at the end. */
  lemma StepSubscribeNew(s: Scan, e: Envelope, now: string, addr: string)
    requires SenderAddress(e) == Some(addr) && Classify(NormalizedSubject(e)) == Subscribe
    requires forall j :: 0 <= j < |s.subscribers| ==> s.subscribers[j].email != addr
    ensures Step(s, e, now).subscribers == s.subscribers + [Subscriber(addr, Some(true), Some(now), None)]
    ensures Step(s, e, now).changes == s.changes + 1
    ensures Step(s, e, now).marked == s.marked + [e.uid]
  {
  }

  /**
   * SUBSCRIBE from an address whose first record is not active (false or no
   * field) sets `active` to true and touches nothing else.
   */
  lemma StepSubscribeReactivates(s: Scan, e: Envelope, now: string, addr: string, i: nat)
    requires SenderAddress(e) == Some(addr) && Classify(NormalizedSubject(e)) == Subscribe
    requires i < |s.subscribers| && s.subscribers[i].email == addr
    requires forall j :: 0 <= j < i ==> s.subscribers[j].email != addr
    requires s.subscribers[i].active in {None, Some(false)}
    ensures var r := s.subscribers[i];
      Step(s, e, now).subscribers == s.subscribers[i := Subscriber(addr, Some(true), r.subscribedAt, r.unsubscribedAt)]
    ensures Step(s, e, now).changes == s.changes + 1
    ensures Step(s, e, now).marked == s.marked + [e.uid]
  {
  }

  /** SUBSCRIBE from an address whose first record is active changes nothing but the marks. */
  lemma StepSubscribeActive(s: Scan, e: Envelope, now: string, addr: string, i: nat)
    requires SenderAddress(e) == Some(addr) && Classify(NormalizedSubject(e)) == Subscribe
    requires i < |s.subscribers| && s.subscribers[i].email == addr
    requires forall j :: 0 <= j < i ==> s.subscribers[j].email != addr
    requires s.subscribers[i].active == Some(true)
    ensures Step(s, e, now) == Scan(s.subscribers, s.changes, s.marked + [e.uid])
  {
  }

  /** Applying the same SUBSCRIBE twice leaves the list as applying it once, and counts once. */
  lemma {:induction false} SubscribeTwice(s: Scan, e: Envelope, now: string, later: string)
    requires SenderAddress(e).Some? && Classify(NormalizedSubject(e)) == Subscribe
    ensures Step(Step(s, e, now), e, later).subscribers == Step(s, e, now).subscribers
    ensures Step(Step(s, e, now), e, later).changes == Step(s, e, now).changes
  {
    var addr := SenderAddress(e).value;
    var t := Step(s, e, now);
    match Find(s.subscribers, addr)
    case None =>
      assert t.subscribers[|s.subscribers|].email == addr;
      var k := Find(t.subscribers, addr).value;
      assert k == |s.subscribers|;
    case Some(i) =>
      assert t.subscribers[i].email == addr;
      var k := Find(t.subscribers, addr).value;
      assert k == i;
  }

  /**
   * UNSUBSCRIBE from a known address sets `active` to false and stamps
   * `unsubscribedAt`, whatever `active` was, and counts one change.
   */
  lemma StepUnsubscribeKnown(s: Scan, e: Envelope, now: string, addr: string, i: nat)
    requires SenderAddress(e) == Some(addr) && Classify(NormalizedSubject(e)) == Unsubscribe
    requires i < |s.subscribers| && s.subscribers[i].email == addr
    requires forall j :: 0 <= j < i ==> s.subscribers[j].email != addr
    ensures var r := s.subscribers[i];
      Step(s, e, now).subscribers == s.subscribers[i := Subscriber(addr, Some(false), r.subscribedAt, Some(now))]
    ensures Step(s, e, now).changes == s.changes + 1
    ensures Step(s, e, now).marked == s.marked + [e.uid]
  {
  }

  /** UNSUBSCRIBE from an unknown address creates nothing, counts nothing, and is marked. */
  lemma StepUnsubscribeUnknown(s: Scan, e: Envelope, now: string, addr: string)
    requires SenderAddress(e) == Some(addr) && Classify(NormalizedSubject(e)) == Unsubscribe
    requires forall j :: 0 <= j < |s.subscribers| ==> s.subscribers[j].email != addr
    ensures Step(s, e, now) == Scan(s.subscribers, s.changes, s.marked + [e.uid])
  {
  }

  /** Exactly the command messages are marked, whether or not they changed anything. */
  lemma StepMarked(s: Scan, e: Envelope, now: string)
    ensures Step(s, e, now).marked == s.marked + if IsCommand(e) then [e.uid] else []
  {
  }

  /** The subscribe branch adds at most one record and keeps every email in its place. */
  lemma ApplySubscribeShape(subs: seq<Subscriber>, addr: string, now: string)
    ensures var (r, d) := ApplySubscribe(subs, addr, now);
      |subs| <= |r| <= |subs| + 1 && d <= 1 && (d == 0 ==> r == subs)
      && forall i :: 0 <= i < |subs| ==> r[i].email == subs[i].email
  {
  }

  /** The cancel branch never adds a record and keeps every email in its place. */
  lemma ApplyUnsubscribeShape(subs: seq<Subscriber>, addr: string, now: string)
    ensures var (r, d) := ApplyUnsubscribe(subs, addr, now);
      |r| == |subs| && d <= 1 && (d == 0 ==> r == subs)
      && forall i :: 0 <= i < |subs| ==> r[i].email == subs[i].email
  {
  }

  /** A branch adds at most one record, and keeps every record's email and place. */
  lemma ApplyGrowth(s: Scan, cmd: Command, addr: string, uid: Uid, now: string)
    ensures |s.subscribers| <= |Apply(s, cmd, addr, uid, now).subscribers| <= |s.subscribers| + 1
    ensures forall i :: 0 <= i < |s.subscribers| ==>
      Apply(s, cmd, addr, uid, now).subscribers[i].email == s.subscribers[i].email
  {
    ApplySubscribeShape(s.subscribers, addr, now);
    ApplyUnsubscribeShape(s.subscribers, addr, now);
  }

  /** A branch adds at most one change, and one that adds none leaves the list as it was. */
  lemma ApplyCounter(s: Scan, cmd: Command, addr: string, uid: Uid, now: string)
    ensures s.changes <= Apply(s, cmd, addr, uid, now).changes <= s.changes + 1
    ensures Apply(s, cmd, addr, uid, now).changes == s.changes ==>
      Apply(s, cmd, addr, uid, now).subscribers == s.subscribers
  {
    ApplySubscribeShape(s.subscribers, addr, now);
    ApplyUnsubscribeShape(s.subscribers, addr, now);
  }

  /** One message adds at most one record, and keeps every record's email and place. */
  lemma StepGrowth(s: Scan, e: Envelope, now: string)
    ensures |s.subscribers| <= |Step(s, e, now).subscribers| <= |s.subscribers| + 1
    ensures forall i :: 0 <= i < |s.subscribers| ==>
      Step(s, e, now).subscribers[i].email == s.subscribers[i].email
  {
    if SenderAddress(e).Some? {
      ApplyGrowth(s, Classify(NormalizedSubject(e)), SenderAddress(e).value, e.uid, now);
    }
  }

  /** One message adds at most one change, and a message that adds none leaves the list as it was. */
  lemma StepCounter(s: Scan, e: Envelope, now: string)
    ensures s.changes <= Step(s, e, now).changes <= s.changes + 1
    ensures Step(s, e, now).changes == s.changes ==> Step(s, e, now).subscribers == s.subscribers
  {
    if SenderAddress(e).Some? {
      ApplyCounter(s, Classify(NormalizedSubject(e)), SenderAddress(e).value, e.uid, now);
    }
  }

  /** Both branches keep the emails unique: a record is pushed only for an address not yet listed. */
  lemma ApplyUnique(subs: seq<Subscriber>, addr: string, now: string)
    requires UniqueEmails(subs)
    ensures UniqueEmails(ApplySubscribe(subs, addr, now).0)
    ensures UniqueEmails(ApplyUnsubscribe(subs, addr, now).0)
  {
  }

  /** One message keeps the emails unique. */
  lemma StepUnique(s: Scan, e: Envelope, now: string)
    requires UniqueEmails(s.subscribers)
    ensures UniqueEmails(Step(s, e, now).subscribers)
  {
    if SenderAddress(e).Some? {
      ApplyUnique(s.subscribers, SenderAddress(e).value, now);
    }
  }

  // ---------------------------------------------------------------- a whole run

  lemma {:induction false} FoldUnique(s: Scan, inbox: seq<Envelope>, now: string)
    requires UniqueEmails(s.subscribers)
    ensures UniqueEmails(Fold(s, inbox, now).subscribers)
    decreases |inbox|
  {
    if inbox != [] {
      FoldUnique(s, inbox[..|inbox| - 1], now);
      StepUnique(Fold(s, inbox[..|inbox| - 1], now), inbox[|inbox| - 1], now);
    }
  }

  lemma {:induction false} FoldGrowth(s: Scan, inbox: seq<Envelope>, now: string)
    ensures |s.subscribers| <= |Fold(s, inbox, now).subscribers| <= |s.subscribers| + |inbox|
    ensures forall i :: 0 <= i < |s.subscribers| ==>
      Fold(s, inbox, now).subscribers[i].email == s.subscribers[i].email
    decreases |inbox|
  {
    if inbox != [] {
      FoldGrowth(s, inbox[..|inbox| - 1], now);
      StepGrowth(Fold(s, inbox[..|inbox| - 1], now), inbox[|inbox| - 1], now);
    }
  }

  /** A run whose counter did not move leaves the list as it was, so skipping the write loses nothing. */
  lemma {:induction false} FoldUnchangedCounter(s: Scan, inbox: seq<Envelope>, now: string)
    ensures s.changes <= Fold(s, inbox, now).changes <= s.changes + |inbox|
    ensures Fold(s, inbox, now).changes == s.changes ==> Fold(s, inbox, now).subscribers == s.subscribers
    decreases |inbox|
  {
    if inbox != [] {
      FoldUnchangedCounter(s, inbox[..|inbox| - 1], now);
      StepCounter(Fold(s, inbox[..|inbox| - 1], now), inbox[|inbox| - 1], now);
    }
  }

  /** A run marks exactly the command messages, in inbox order. */
  lemma {:induction false} FoldMarked(s: Scan, inbox: seq<Envelope>, now: string)
    ensures Fold(s, inbox, now).marked == s.marked + CommandUids(inbox)
    decreases |inbox|
  {
    if inbox != [] {
      var init := inbox[..|inbox| - 1];
      var last := inbox[|inbox| - 1];
      FoldMarked(s, init, now);
      StepMarked(Fold(s, init, now), last, now);
    }
  }
}
