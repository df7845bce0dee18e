/** The single-admission flags of the relay, `productor` and `consumer`, as plain values.
    producer: 0 free, 1 an ingest stream is active.
    consumer: 0 free, 1 a consumer is attached, -1 a consumer has disconnected and its
    handler is draining the hand-off slot. */
module Admission {

  datatype Flags = Flags(producer: int, consumer: int)

  const Idle: Flags := Flags(0, 0)

  datatype Admit = Admit(flags: Flags, admitted: bool)

  /** `POST /live`: CAS(productor, 0, 1); a second stream is turned away ("Connector Exists"). */
  function AdmitProducer(f: Flags): (a: Admit)
    ensures a.admitted <==> f.producer == 0
    ensures a.admitted ==> a.flags == f.(producer := 1)
    ensures !a.admitted ==> a.flags == f
  {
    if f.producer == 0 then Admit(f.(producer := 1), true) else Admit(f, false)
  }

  /** The deferred store when the ingest stream ends, whatever ended it. */
  function ReleaseProducer(f: Flags): (g: Flags)
    ensures g.producer == 0 && g.consumer == f.consumer
  {
    f.(producer := 0)
  }

  /** `GET /live`: admitted only while an ingest stream is active and CAS(consumer, 0, 1)
      succeeds; otherwise "No Input" and nothing changes. */
  function AdmitConsumer(f: Flags): (a: Admit)
    ensures a.admitted <==> f.producer == 1 && f.consumer == 0
    ensures a.admitted ==> a.flags == f.(consumer := 1)
    ensures !a.admitted ==> a.flags == f
  {
    if f.producer == 1 && f.consumer == 0 then Admit(f.(consumer := 1), true) else Admit(f, false)
  }

  /** First deferred store of the egress handler on disconnect: stop the producer from
      handing on tags before draining the slot. */
  function DetachConsumer(f: Flags): (g: Flags)
    ensures g.consumer == -1 && g.producer == f.producer
  {
    f.(consumer := -1)
  }

  /** Last deferred store of the egress handler: the admission slot is free again. */
  function ReleaseConsumer(f: Flags): (g: Flags)
    ensures g.consumer == 0 && g.producer == f.producer
  {
    f.(consumer := 0)
  }

  /** What the ingest side reads as "consumer attached" (`consumer == 1`). */
  predicate Attached(f: Flags) {
    f.consumer == 1
  }

  /** At most one stream per side: once admitted, a second admission on the same side is
      refused until the first is released, and a draining consumer slot admits no one. */
  lemma AdmissionIsExclusive(f: Flags)
    ensures AdmitProducer(f).admitted ==> !AdmitProducer(AdmitProducer(f).flags).admitted
    ensures AdmitConsumer(f).admitted ==> !AdmitConsumer(AdmitConsumer(f).flags).admitted
    ensures !AdmitConsumer(DetachConsumer(f)).admitted
    ensures !Attached(DetachConsumer(f))
  {
  }

  /** The slots free up again: a released producer slot admits the next stream, and a
      released consumer slot admits the next consumer while ingest is active. */
  lemma ReleaseReopens(f: Flags)
    ensures AdmitProducer(ReleaseProducer(f)).admitted
    ensures f.producer == 1 ==> AdmitConsumer(ReleaseConsumer(DetachConsumer(f))).admitted
  {
  }
}
