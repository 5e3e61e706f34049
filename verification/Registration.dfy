/** Registration of services by a client against the table of its server. */
module Registration {
  import opened Options
  import opened Bytes
  import opened Headers
  import opened Transfer
  import opened Framing
  import opened Replies
  import opened ServiceTable
  import opened AccessPoints

  const NAME_SIZE: nat := 80

  ghost predicate IsName(name: Name) {
    |name| < NAME_SIZE && forall i :: 0 <= i < |name| ==> name[i] != 0
  }

  function Zeros(n: nat): (s: seq<byte>)
    ensures |s| == n && forall i :: 0 <= i < n ==> s[i] == 0
  {
    seq(n, _ => 0)
  }

  /** `Register_Message`. */
  function RegisterMessage(code: word, name: Name): (s: seq<byte>)
    requires |name| < NAME_SIZE
    ensures |s| == HEADER_SIZE + NAME_SIZE
  {
    EncodeEntry(Entry(DEMSERV_ADD, code, NAME_SIZE, 0)) + name + Zeros(NAME_SIZE - |name|)
  }

  /** `Response_For_Registration`: the verdict is the system code; the second argument, which becomes the
      response code, defaults to 0. */
  function RegistrationResponse(found: bool): Exit {
    Exit(if found then DEMRESP_REGISTRATION_OK else DEMRESP_SERVICE_NOT_FOUND, HEADER_SIZE, 0, 0)
  }

  /** The object a client has ready for the response. */
  const BlankResponse: Exit := Exit(DEMRESP_INVALID, 0, 0, DEMRESP_INVALID)

  /** What the client concludes from a response: it looks at the response code. */
  datatype Conclusion = Accept | Refuse | Unknown

  function Conclude(response: Exit): Conclusion {
    if response.responseCode == DEMRESP_REGISTRATION_OK then Accept
    else if response.responseCode == DEMRESP_SERVICE_NOT_FOUND then Refuse
    else Unknown
  }

  /** As the client receives it, either response reads as acceptance; its branch for a missing service is
      dead. */
  lemma EveryResponseIsAccepted(found: bool, tail: seq<byte>, reply: seq<byte>)
    requires |reply| == HEADER_SIZE
    ensures var r := Receives(EncodeExit(RegistrationResponse(found)) + tail, reply, 0, false);
            r.outcome == Ok && r.rest == tail && Conclude(DecodeExit(r.body)) == Accept
  {
    var image := EncodeExit(RegistrationResponse(found));
    DecodeEncodeExit(RegistrationResponse(found), []);
    assert image + [] == image == (image + tail)[..HEADER_SIZE] + reply[HEADER_SIZE..];
  }

  lemma {:induction false} CStringOf(name: Name, tail: seq<byte>)
    requires forall i :: 0 <= i < |name| ==> name[i] != 0
    requires tail == [] || tail[0] == 0
    ensures CString(name + tail) == name
  {
    if name == [] {
      assert name + tail == tail;
    } else {
      CStringOf(name[1..], tail);
      assert (name + tail)[1..] == name[1..] + tail;
    }
  }

  /** The server finds in a registration message exactly the code and the name the client put there. */
  lemma RegistrationIsJudged(t: Table, code: word, name: Name)
    requires IsName(name) && code < |t.slots|
    ensures Addressed(t, RegisterMessage(code, name))
    ensures Judge(t, RegisterMessage(code, name)) ==
            if t.slots[code] == Some(name) then Registered else Error
    ensures MessageSize(RegisterMessage(code, name)) == |RegisterMessage(code, name)|
  {
    var h := Entry(DEMSERV_ADD, code, NAME_SIZE, 0);
    var body := name + Zeros(NAME_SIZE - |name|);
    DecodeEncodeEntry(h, body);
    assert RegisterMessage(code, name) == EncodeEntry(h) + body;
    CStringOf(name, Zeros(NAME_SIZE - |name|));
    assert RegisterMessage(code, name)[HEADER_SIZE..] == body;
  }

  datatype AddOutcome = Added | Refused | Thrown(outcome: ReceiveOutcome) | Stopped

  /** Sends the registration request; it carries no attached buffer. */
  method SendRegistration(point: AccessPoint, code: word, name: Name) returns (sent: SendOutcome)
    requires point.Valid() && !point.locked && IsName(name)
    modifies point`locked, point.kernel
    ensures point.Valid() && point.kernel.wire == old(point.kernel.wire)
    ensures NoFailures(old(point.kernel.script)) ==> NoFailures(point.kernel.script)
    ensures sent != Sent ==>
              exists i :: 0 <= i < |old(point.kernel.script)| && old(point.kernel.script)[i] in {Failed, Move(0)}
    ensures sent == Sent ==>
              point.kernel.written == old(point.kernel.written)
                [point.socket := old(point.kernel.written)[point.socket] + RegisterMessage(code, name)]
  {
    var h := Entry(DEMSERV_ADD, code, NAME_SIZE, 0);
    var image := RegisterMessage(code, name);
    DecodeEncodeEntry(h, name + Zeros(NAME_SIZE - |name|));
    assert image == EncodeEntry(h) + (name + Zeros(NAME_SIZE - |name|));
    var request := new byte[HEADER_SIZE + NAME_SIZE];
    Memcpy(request, 0, image);
    assert request[..] == image;
    sent := point.Send(request, []);
    assert old(point.kernel.written)[point.socket] + image + [] == old(point.kernel.written)[point.socket] + image;
  }

  /** `Access_Point::add_service`: the table changes only on a complete response with code 0. */
  method AddService(point: AccessPoint, code: word, name: Name) returns (outcome: AddOutcome)
    requires point.Valid() && !point.locked && IsName(name) && code < point.table.Length
    requires NoFailures(point.kernel.script)
    modifies point`locked, point.kernel, point.table
    ensures point.Valid()
    ensures var rec := Receives(old(point.kernel.wire)[point.socket], EncodeExit(BlankResponse), 0, false);
            && (outcome.Thrown? ==> outcome.outcome == rec.outcome != Ok)
            && (outcome == Added ==> rec.outcome == Ok && Conclude(DecodeExit(rec.body)) == Accept)
            && (outcome == Refused ==> rec.outcome == Ok && Conclude(DecodeExit(rec.body)) == Refuse)
    ensures outcome == Stopped ==>
              (exists i :: 0 <= i < |old(point.kernel.script)| && old(point.kernel.script)[i] == Move(0)) ||
              (var rec := Receives(old(point.kernel.wire)[point.socket], EncodeExit(BlankResponse), 0, false);
               rec.outcome == Ok && Conclude(DecodeExit(rec.body)) == Unknown)
    ensures outcome != Stopped ==>
              !point.locked &&
              point.kernel.written == old(point.kernel.written)
                [point.socket := old(point.kernel.written)[point.socket] + RegisterMessage(code, name)]
    ensures point.table[..] == if outcome == Added then old(point.table[..])[code := Some(name)] else old(point.table[..])
  {
    var sent := SendRegistration(point, code, name);
    if sent != Sent {
      return Stopped;
    }
    var reply, none := new byte[HEADER_SIZE], new byte[0];
    Memcpy(reply, 0, EncodeExit(BlankResponse));
    assert reply[..] == EncodeExit(BlankResponse);
    var received, _ := point.Receive(reply, none, false);
    if received == Aborted {
      return Stopped;
    }
    if received != Ok {
      return Thrown(received);
    }
    var conclusion := Conclude(DecodeExit(reply[..]));
    if conclusion == Accept {
      point.table[code] := Some(name);
      outcome := Added;
    } else if conclusion == Refuse {
      outcome := Refused;
    } else {
      outcome := Stopped;
    }
  }

  // ----- Agreement over whole runs

  /** The tables of a server and of one of its clients; `halted` once the server has stopped. */
  datatype Peers = Peers(server: Table, client: seq<Option<Name>>, halted: bool)

  datatype Step =
    | ServerAdd(code: nat, name: Name)
    | ServerDelete(code: nat)
    | ClientAdd(code: nat, name: Name)
    | ClientDelete(code: nat)

  ghost predicate Possible(p: Peers, a: Step) {
    && !p.halted
    && match a
       case ServerAdd(c, name) => c < |p.server.slots| && IsName(name)
       case ServerDelete(c) => c < |p.server.slots|
       case ClientAdd(c, name) => c < WORD_LIMIT && c < |p.server.slots| && c < |p.client| && IsName(name)
       case ClientDelete(c) => c < |p.client|
  }

  /** A client's registration goes through the server's dispatcher; `haltOnError` is how `ERROR` works. */
  ghost function After(p: Peers, a: Step, haltOnError: bool): Peers
    requires Possible(p, a)
  {
    match a
    case ServerAdd(c, name) =>
      var (t, outcome) := Apply(p.server, Add(c, name));
      p.(server := t, halted := outcome == Halted)
    case ServerDelete(c) => p.(server := Apply(p.server, Delete(c)).0)
    case ClientAdd(c, name) =>
      RegistrationIsJudged(p.server, c, name);
      var found := Judge(p.server, RegisterMessage(c, name)) == Registered;
      if !found && haltOnError then p.(halted := true)
      else if Conclude(RegistrationResponse(found)) == Accept then p.(client := p.client[c := Some(name)])
      else p
    case ClientDelete(c) => p.(client := p.client[c := None])
  }

  /** Every service of the client is in the server's table under the same name. */
  ghost predicate Agree(p: Peers) {
    |p.client| <= |p.server.slots| && forall c :: 0 <= c < |p.client| && p.client[c].Some? ==> p.client[c] == p.server.slots[c]
  }

  ghost predicate PossibleRun(p: Peers, steps: seq<Step>)
    decreases |steps|
  {
    steps != [] ==> Possible(p, steps[0]) && PossibleRun(After(p, steps[0], true), steps[1..])
  }

  ghost function AfterRun(p: Peers, steps: seq<Step>): Peers
    requires PossibleRun(p, steps)
    decreases |steps|
  {
    if steps == [] then p else AfterRun(After(p, steps[0], true), steps[1..])
  }

  /** One step keeps the agreement if and only if it is not the deletion of a service the client uses. */
  lemma StepKeepsAgreementIff(p: Peers, a: Step)
    requires Agree(p) && Possible(p, a)
    ensures Agree(After(p, a, true)) <==>
            !(a.ServerDelete? && a.code < |p.client| && p.client[a.code].Some?)
  {
    if a.ClientAdd? {
      RegistrationIsJudged(p.server, a.code, a.name);
    }
    if a.ServerDelete? && a.code < |p.client| && p.client[a.code].Some? {
      assert p.server.slots[a.code].Some?;
    }
  }

  /** A client's registration succeeds, and changes its table and nothing else, if and only if the server has
      the service under that name; otherwise the server halts. */
  lemma RegistersIff(p: Peers, code: word, name: Name)
    requires Possible(p, ClientAdd(code, name))
    ensures var q := After(p, ClientAdd(code, name), true);
            && (q.halted <==> p.server.slots[code] != Some(name))
            && q.server == p.server && q.client == if q.halted then p.client else p.client[code := Some(name)]
  {
    RegistrationIsJudged(p.server, code, name);
  }

  /** So it holds in every run without deletions on the server. */
  lemma {:induction false} AgreementHolds(p: Peers, steps: seq<Step>)
    requires Agree(p) && PossibleRun(p, steps) && forall a <- steps :: !a.ServerDelete?
    ensures Agree(AfterRun(p, steps))
    decreases |steps|
  {
    if steps != [] {
      assert steps[0] in steps;
      StepKeepsAgreementIff(p, steps[0]);
      forall a | a in steps[1..] ensures !a.ServerDelete? {
        assert a in steps;
      }
      AgreementHolds(After(p, steps[0], true), steps[1..]);
    }
  }

  /** It rests on the halt alone: if `ERROR` returned, the client would record a service the server lacks
      exactly when it asked for one. */
  lemma WithoutTheHaltIff(p: Peers, code: word, name: Name)
    requires Agree(p) && Possible(p, ClientAdd(code, name))
    ensures Agree(After(p, ClientAdd(code, name), false)) <==> p.server.slots[code] == Some(name)
  {
    RegistrationIsJudged(p.server, code, name);
    assert After(p, ClientAdd(code, name), false).client[code] == Some(name);
  }
}
