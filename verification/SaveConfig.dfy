/** Reassembly of a configuration that arrives in fragments: what is committed, told from the messages alone. */
module SaveConfig {
  import opened Options

  /** A message for one configuration: who sent it (connection, address, port and time stamp), whether it ends the
      configuration, whether the sender may save it, and the sequence number and text when they can be read. */
  datatype Msg = Msg(who: nat, isEnd: bool, allowed: bool, body: Option<(int, string)>)

  /** The record kept between messages. */
  datatype Record = Record(seqNo: int, json: Option<string>, who: Option<nat>)

  const BLANK := Record(0, None, None)

  predicate Readable(m: Msg) { m.allowed && m.body.Some? }

  function Number(m: Msg): int requires Readable(m) { m.body.value.0 }

  function Payload(m: Msg): string requires Readable(m) { m.body.value.1 }

  // ---- the state machine -----------------------------------------------------------------------------------------

  /** A message from someone else starts over. */
  function Noticed(r: Record, m: Msg): Record {
    if r.who != Some(m.who) then Record(0, None, Some(m.who)) else r
  }

  /** A readable message that is not delayed is added to what was gathered under the same number. */
  function Added(r: Record, m: Msg): Record
    requires Readable(m)
  {
    var before := if r.json.Some? && Number(m) == r.seqNo then r.json.value else "";
    r.(seqNo := Number(m), json := Some(before + Payload(m)))
  }

  predicate Heeds(r: Record, m: Msg) { Readable(m) && Number(m) >= r.seqNo }

  /** The next record, and the text committed. */
  function Next(r: Record, m: Msg): (Record, Option<string>) {
    var r1 := Noticed(r, m);
    if !Heeds(r1, m) then (r1, None)
    else
      var r2 := Added(r1, m);
      if m.isEnd then (r2.(json := None), r2.json) else (r2, None)
  }

  class Assembly {
    var seqNo: int
    var json: Option<string>
    var who: Option<nat>

    function State(): Record reads this { Record(seqNo, json, who) }

    constructor ()
      ensures State() == BLANK
    {
      seqNo, json, who := 0, None, None;
    }

    method Receive(m: Msg) returns (committed: Option<string>)
      modifies this
      ensures (State(), committed) == Next(old(State()), m)
    {
      if who != Some(m.who) {
        seqNo := 0;
        json := None;
        who := Some(m.who);
      }
      if !m.allowed || m.body.None? { return None; }
      var (number, text) := m.body.value;
      if number < seqNo { return None; }
      if json.Some? && number > seqNo { json := None; }
      seqNo := number;
      json := Some((if json.Some? then json.value else "") + text);
      if !m.isEnd { return None; }
      committed := json;
      json := None;
    }
  }

  // ---- what a run of messages amounts to -------------------------------------------------------------------------------

  function Run(h: seq<Msg>): Record {
    if |h| == 0 then BLANK else Next(Run(h[..|h| - 1]), h[|h| - 1]).0
  }

  /** The text committed by the last message. */
  function Committed(h: seq<Msg>): Option<string>
    requires |h| > 0
  {
    Next(Run(h[..|h| - 1]), h[|h| - 1]).1
  }

  /** Where the uninterrupted stretch of messages from the last sender begins. */
  function Since(h: seq<Msg>): (k: nat)
    ensures k <= |h| && (|h| > 0 ==> k < |h|)
  {
    if |h| == 0 then 0
    else if |h| == 1 || h[|h| - 2].who != h[|h| - 1].who then |h| - 1
    else Since(h[..|h| - 1])
  }

  /** The last message ends a configuration and is not delayed: its number is at least 0 and that of every readable
      message before it in the stretch. */
  ghost predicate Commits(h: seq<Msg>) {
    |h| > 0 && var m := h[|h| - 1];
    m.isEnd && Readable(m) && Number(m) >= 0
    && forall i :: Since(h) <= i < |h| - 1 && Readable(h[i]) ==> Number(h[i]) <= Number(m)
  }

  /** Where the messages that count for a commit by the last one begin: after the last commit in the stretch. */
  ghost function Begin(h: seq<Msg>): nat {
    if |h| == 0 then 0
    else if Since(h) == |h| - 1 then |h| - 1
    else if Commits(h[..|h| - 1]) then |h| - 1
    else Begin(h[..|h| - 1])
  }

  /** The texts numbered `s` from message `from` on, in order of arrival. */
  function Texts(h: seq<Msg>, from: nat, s: int): string {
    if |h| <= from then ""
    else
      var m := h[|h| - 1];
      Texts(h[..|h| - 1], from, s) + if Readable(m) && Number(m) == s then Payload(m) else ""
  }

  /** The record agrees with the messages from `since` on, of which those before `begin` have been committed. */
  ghost predicate Agrees(h: seq<Msg>, since: nat, begin: nat, r: Record) {
    && since <= begin <= |h|
    && r.seqNo >= 0
    && (forall i :: since <= i < |h| && Readable(h[i]) ==> Number(h[i]) <= r.seqNo)
    && (r.seqNo == 0 || exists i :: since <= i < |h| && Readable(h[i]) && Number(h[i]) == r.seqNo)
    && (if r.json.Some? then r.json.value else "") == Texts(h, begin, r.seqNo)
  }

  lemma {:induction false} TextsNone(h: seq<Msg>, from: nat, s: int)
    requires forall i :: from <= i < |h| && Readable(h[i]) ==> Number(h[i]) != s
    ensures Texts(h, from, s) == ""
  {
    if |h| > from { TextsNone(h[..|h| - 1], from, s); }
  }

  lemma TextsNext(h: seq<Msg>, m: Msg, from: nat, s: int)
    requires from <= |h|
    ensures Texts(h + [m], from, s) == Texts(h, from, s) + if Readable(m) && Number(m) == s then Payload(m) else ""
  {
    assert (h + [m])[..|h|] == h;
  }

  lemma HeedsExact(h: seq<Msg>, m: Msg, since: nat, begin: nat, r: Record)
    requires Agrees(h, since, begin, r)
    ensures Heeds(r, m) <==> (Readable(m) && Number(m) >= 0 &&
      forall i :: since <= i < |h| && Readable(h[i]) ==> Number(h[i]) <= Number(m))
  {
    hide Texts;
  }

  lemma AddedAgrees(h: seq<Msg>, m: Msg, since: nat, begin: nat, r: Record)
    requires Agrees(h, since, begin, r) && Heeds(r, m)
    ensures Added(r, m).json == Some(Texts(h + [m], begin, Number(m)))
    ensures Agrees(h + [m], since, begin, Added(r, m))
    ensures Agrees(h + [m], since, |h| + 1, Added(r, m).(json := None))
  {
    hide Texts;
    var all := h + [m];
    assert forall i :: 0 <= i < |h| ==> all[i] == h[i];
    assert all[|h|] == m;
    TextsNext(h, m, begin, Number(m));
    if Number(m) > r.seqNo { TextsNone(h, begin, Number(m)); }
    TextsNone(all, |h| + 1, Number(m));
  }

  lemma IgnoredAgrees(h: seq<Msg>, m: Msg, since: nat, begin: nat, r: Record)
    requires Agrees(h, since, begin, r) && !Heeds(r, m)
    ensures Agrees(h + [m], since, begin, r)
  {
    hide Texts;
    var all := h + [m];
    assert forall i :: 0 <= i < |h| ==> all[i] == h[i];
    TextsNext(h, m, begin, r.seqNo);
    assert Texts(h, begin, r.seqNo) + "" == Texts(h, begin, r.seqNo);
  }

  lemma AgreesNext(h: seq<Msg>, m: Msg, since: nat, begin: nat, r: Record)
    requires Agrees(h, since, begin, r) && r.who == Some(m.who)
    ensures Heeds(r, m) <==> (Readable(m) && Number(m) >= 0 &&
      forall i :: since <= i < |h| && Readable(h[i]) ==> Number(h[i]) <= Number(m))
    ensures Next(r, m).0.who == Some(m.who)
    ensures Heeds(r, m) ==> Added(r, m).json == Some(Texts(h + [m], begin, Number(m)))
    ensures Agrees(h + [m], since, if m.isEnd && Heeds(r, m) then |h| + 1 else begin, Next(r, m).0)
  {
    hide Texts, Agrees;
    HeedsExact(h, m, since, begin, r);
    if Heeds(r, m) { AddedAgrees(h, m, since, begin, r); } else { IgnoredAgrees(h, m, since, begin, r); }
  }

  lemma NewAgrees(h: seq<Msg>, who: nat)
    ensures Agrees(h, |h|, |h|, Record(0, None, Some(who)))
  {
    TextsNone(h, |h|, 0);
  }

  /** Where the messages not yet committed begin, once the last one has been dealt with. */
  ghost function Uncommitted(h: seq<Msg>): nat {
    if Commits(h) then |h| else Begin(h)
  }

  lemma {:induction false} RunAgrees(h: seq<Msg>)
    requires |h| > 0
    ensures Agrees(h, Since(h), Uncommitted(h), Run(h)) && Run(h).who == Some(h[|h| - 1].who)
    ensures Committed(h) == if Commits(h) then Some(Texts(h, Begin(h), Number(h[|h| - 1]))) else None
  {
    hide Agrees, Heeds, Added, Texts;
    var front, m := h[..|h| - 1], h[|h| - 1];
    assert h == front + [m];
    var r := Noticed(Run(front), m);
    if |h| > 1 { RunAgrees(front); }
    if |h| > 1 && h[|h| - 2].who == m.who {
      AgreesNext(front, m, Since(front), Uncommitted(front), r);
    } else {
      NewAgrees(front, m.who);
      AgreesNext(front, m, |front|, |front|, r);
    }
  }

  /** In every run, a message commits exactly when it ends a configuration and is not delayed, and what it commits is
      the texts with its own number that its sender sent since the sender's last commit, or since another sender
      was heard, in order of arrival. */
  lemma CommitExact(h: seq<Msg>, n: nat)
    requires n < |h|
    ensures var k := h[..n + 1];
      Committed(k) == if Commits(k) then Some(Texts(k, Begin(k), Number(h[n]))) else None
  {
    RunAgrees(h[..n + 1]);
  }
}
