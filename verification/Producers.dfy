/** The idempotent-producer state machine (store/producer.go). */
module Producers {
  import opened Prelude

  datatype ProducerState = ProducerState(epoch: int, lastSeq: int, lastUpdated: int)

  datatype ProducerResult = NoProducer | Accepted | Duplicate

  datatype ProducerError = StaleEpoch(currentEpoch: int) | InvalidEpochSeq | SeqGap(expected: int, received: int)

  /** What one request does to its producer: the state to persist, or the last
      accepted sequence number of a duplicate. */
  datatype Verdict =
    | Accept(state: ProducerState)
    | Repeat(lastSeq: int)
    | Refuse(error: ProducerError)

  function ValidateProducer(state: Option<ProducerState>, epoch: int, sequence: int, nowUnix: int): Verdict {
    match state
    case None =>
      if sequence != 0 then Refuse(SeqGap(0, sequence)) else Accept(ProducerState(epoch, 0, nowUnix))
    case Some(st) =>
      if epoch < st.epoch then
        Refuse(StaleEpoch(st.epoch))
      else if epoch > st.epoch then
        if sequence != 0 then Refuse(InvalidEpochSeq) else Accept(ProducerState(epoch, 0, nowUnix))
      else if sequence <= st.lastSeq then
        Repeat(st.lastSeq)
      else if sequence == st.lastSeq + 1 then
        Accept(ProducerState(epoch, sequence, nowUnix))
      else
        Refuse(SeqGap(st.lastSeq + 1, sequence))
  }

  /** One accepted request of a producer. */
  datatype Mark = Mark(epoch: int, sequence: int)

  /** The accepted requests of one producer, oldest first: epochs never go back, every
      epoch starts at sequence 0 and runs 0, 1, 2, ... */
  ghost predicate Orderly(marks: seq<Mark>) {
    && (marks != [] ==> marks[0].sequence == 0)
    && (forall i :: 0 < i < |marks| ==> Follows(marks[i - 1], marks[i]))
  }

  predicate Follows(a: Mark, b: Mark) {
    if b.epoch == a.epoch then b.sequence == a.sequence + 1 else a.epoch < b.epoch && b.sequence == 0
  }

  /** The producer state that a history of accepted requests stands for. */
  ghost predicate Tracks(state: Option<ProducerState>, marks: seq<Mark>) {
    match state
    case None => marks == []
    case Some(st) => marks != [] && marks[|marks| - 1] == Mark(st.epoch, st.lastSeq)
  }

  lemma OrderlyExtends(marks: seq<Mark>, next: Mark)
    requires marks != [] && Orderly(marks)
    ensures Orderly(marks + [next]) <==> Follows(marks[|marks| - 1], next)
  {
    var longer := marks + [next];
    if Orderly(longer) {
      assert Follows(longer[|marks| - 1], longer[|marks|]);
    }
    if Follows(marks[|marks| - 1], next) {
      forall i | 0 < i < |longer| ensures Follows(longer[i - 1], longer[i]) {
        if i < |marks| {
          assert longer[i - 1] == marks[i - 1] && longer[i] == marks[i];
        }
      }
    }
  }

  /** A request is accepted exactly when it is the next one its history allows, and the
      persisted state then stands for the longer history. */
  lemma AcceptedExactlyWhenNext(state: Option<ProducerState>, marks: seq<Mark>, epoch: int, sequence: int, now: int)
    requires Tracks(state, marks) && Orderly(marks)
    ensures ValidateProducer(state, epoch, sequence, now).Accept? <==> Orderly(marks + [Mark(epoch, sequence)])
    ensures var v := ValidateProducer(state, epoch, sequence, now);
            v.Accept? ==> Tracks(Some(v.state), marks + [Mark(epoch, sequence)])
  {
    if marks != [] {
      OrderlyExtends(marks, Mark(epoch, sequence));
    } else {
      assert ([] + [Mark(epoch, sequence)])[0] == Mark(epoch, sequence);
    }
  }

  /** In an orderly history every later request is strictly ahead of every earlier one. */
  lemma {:induction false} OrderlyStrict(marks: seq<Mark>, i: nat, j: nat)
    requires Orderly(marks) && i < j < |marks|
    ensures || marks[i].epoch < marks[j].epoch
            || (marks[i].epoch == marks[j].epoch && marks[i].sequence < marks[j].sequence)
    decreases j
  {
    assert Follows(marks[j - 1], marks[j]);
    if i < j - 1 {
      OrderlyStrict(marks, i, j - 1);
    }
  }

  /** Within an epoch an orderly history has every sequence number up to its last one. */
  lemma {:induction false} OrderlyCovers(marks: seq<Mark>, i: nat, k: int)
    requires Orderly(marks) && i < |marks| && 0 <= k <= marks[i].sequence
    ensures Mark(marks[i].epoch, k) in marks
    decreases i
  {
    if k < marks[i].sequence {
      assert i > 0 ==> Follows(marks[i - 1], marks[i]);
      OrderlyCovers(marks, i - 1, k);
    }
  }

  /** Every verdict, from the history alone.  `last` is the latest accepted request. */
  lemma VerdictFromHistory(state: Option<ProducerState>, marks: seq<Mark>, epoch: int, sequence: int, now: int)
    requires Tracks(state, marks) && Orderly(marks)
    ensures var v := ValidateProducer(state, epoch, sequence, now);
            && (v.Accept? ==> v == Accept(ProducerState(epoch, sequence, now)))
            && (marks == [] ==>
                  && (v.Accept? <==> sequence == 0)
                  && (v == Refuse(SeqGap(0, sequence)) <==> sequence != 0))
            && (marks != [] ==>
                  var last := marks[|marks| - 1];
                  && (v.Accept? <==> Follows(last, Mark(epoch, sequence)))
                  && (v == Repeat(last.sequence) <==> epoch == last.epoch && sequence <= last.sequence)
                  && (v == Refuse(StaleEpoch(last.epoch)) <==> epoch < last.epoch)
                  && (v == Refuse(InvalidEpochSeq) <==> last.epoch < epoch && sequence != 0)
                  && (v == Refuse(SeqGap(last.sequence + 1, sequence)) <==>
                      epoch == last.epoch && last.sequence + 1 < sequence))
  {
    if marks != [] {
      AcceptedExactlyWhenNext(state, marks, epoch, sequence, now);
      OrderlyExtends(marks, Mark(epoch, sequence));
    }
  }

  /** A request is answered as a repeat exactly if it, with a sequence number that was ever
      given out, was accepted before and no later epoch has been opened since. */
  lemma RepeatedIffAccepted(state: Option<ProducerState>, marks: seq<Mark>, epoch: int, sequence: int, now: int)
    requires Tracks(state, marks) && Orderly(marks) && 0 <= sequence
    ensures ValidateProducer(state, epoch, sequence, now).Repeat? <==>
            Mark(epoch, sequence) in marks && marks[|marks| - 1].epoch == epoch
    ensures Mark(epoch, sequence) in marks ==>
              ValidateProducer(state, epoch, sequence, now) in
              {Repeat(marks[|marks| - 1].sequence), Refuse(StaleEpoch(marks[|marks| - 1].epoch))}
  {
    VerdictFromHistory(state, marks, epoch, sequence, now);
    if marks != [] {
      var n := |marks| - 1;
      if epoch == marks[n].epoch && sequence <= marks[n].sequence {
        OrderlyCovers(marks, n, sequence);
      }
      if Mark(epoch, sequence) in marks {
        var i :| 0 <= i < |marks| && marks[i] == Mark(epoch, sequence);
        if i < n {
          OrderlyStrict(marks, i, n);
        }
      }
    }
  }
}
