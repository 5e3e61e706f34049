/** The part of the server that does not depend on how messages arrive (`Reception_Point`). */
module ReceptionPoints {
  import opened Options
  import opened Bytes
  import opened Headers
  import opened Bindings
  import opened ServiceTable
  import opened SinglyLinkedList

  class ReceptionPoint {
    const numberOfServices: nat
    const table: array<Option<Name>>
    const bindingList: BindingList
    var registeredServices: nat
    var isShutdown: bool
    /** A failed assertion or an `ERROR` has ended the process. */
    var halted: bool

    ghost predicate Valid()
      reads this, table, bindingList, bindingList.Repr
    {
      table.Length == numberOfServices && bindingList.Valid() &&
      this !in bindingList.Repr && table !in bindingList.Repr
    }

    ghost function Services(): Table
      reads this, table
    {
      Table(table[..], registeredServices)
    }

    constructor (n: nat)
      ensures Valid() && fresh(table) && fresh(bindingList.Repr)
      ensures Services() == Empty(n) && bindingList.contents == [] && bindingList.freedNodes == []
      ensures bindingList.nextId == 0 && !isShutdown && !halted
    {
      numberOfServices, registeredServices := n, 0;
      isShutdown, halted := false, false;
      table := new Option<Name>[n](_ => None);
      bindingList := new BindingList();
      new;
      assert table[..] == Empty(n).slots;
    }

    method AddService(code: nat, name: Name) returns (outcome: Outcome)
      requires Valid() && code < numberOfServices
      modifies this`registeredServices, table
      ensures Valid() && (Services(), outcome) == Apply(old(Services()), Add(code, name))
    {
      if table[code].None? {
        if registeredServices >= numberOfServices {
          return Halted;
        }
        table[code] := Some(name);
        registeredServices := registeredServices + 1;
        outcome := Success;
      } else {
        outcome := Duplicated;
      }
    }

    method DeleteService(code: nat) returns (outcome: Outcome)
      requires Valid() && code < numberOfServices
      modifies table
      ensures Valid() && (Services(), outcome) == Apply(old(Services()), Delete(code))
    {
      if table[code].None? {
        outcome := NotFound;
      } else {
        table[code] := None;
        outcome := Success;
      }
    }

    /** `dispatcher` on the newest request: its verdict is the one of the table. The binding of a shutdown
        request, which gets no reply, is given up at once, and so is that of a registration if `respond` could
        deliver its reply; any other is left to the service. */
    method Dispatcher(toWhom: BindingPoint, inMessage: array<byte>, delivered: bool) returns (verdict: Verdict)
      requires Valid() && Addressed(Services(), inMessage[..])
      requires bindingList.nodes != [] && bindingList.nodes[0].bindingPoint == toWhom
      modifies this`isShutdown, this`halted, bindingList`contents, toWhom
      ensures Valid() && verdict == Judge(Services(), inMessage[..])
      ensures bindingList.contents == if verdict == ShutDown || (verdict == Registered && delivered)
                                      then old(bindingList.contents)[0 := old(bindingList.contents)[0].(busy := false)]
                                      else old(bindingList.contents)
      ensures isShutdown == (old(isShutdown) || verdict == ShutDown)
      ensures halted == (old(halted) || verdict == Error)
    {
      assert bindingList.Describes(0);
      var h := DecodeEntry(inMessage[..]);
      if h.systemCode == DEMSERV_ADD {
        if table[h.clientCode] != Some(CString(inMessage[..][HEADER_SIZE..])) {
          halted, verdict := true, Error;
        } else {
          if delivered {
            bindingList.ClearBusy(toWhom, 0);
          }
          verdict := Registered;
        }
      } else if h.systemCode == DEMSERV_SEND {
        if registeredServices != numberOfServices || table[h.clientCode].None? {
          halted, verdict := true, Error;
        } else {
          verdict := Invoked(table[h.clientCode].value);
        }
      } else if h.systemCode == DEMSERV_SHUTDOWN {
        bindingList.ClearBusy(toWhom, 0);
        isShutdown := true;
        verdict := ShutDown;
      } else {
        verdict := Ignored;
      }
    }

    /** `base_shutdown`: with the shutdown flag up, its last sweep frees every request that is left,
        whether or not it was answered. */
    method BaseShutdown()
      requires Valid()
      modifies table, bindingList.Repr
      ensures Valid() && bindingList.nextId == old(bindingList.nextId)
      ensures forall c :: 0 <= c < numberOfServices ==> table[c] == None
      ensures bindingList.contents == Kept(old(bindingList.contents), isShutdown)
      ensures bindingList.freedNodes == old(bindingList.freedNodes) + Dropped(old(bindingList.contents), isShutdown)
      ensures isShutdown ==> bindingList.contents == [] &&
                             bindingList.freedNodes == old(bindingList.freedNodes) + Ids(old(bindingList.contents))
    {
      for i := 0 to numberOfServices
        modifies table
        invariant forall c :: 0 <= c < i ==> table[c] == None
      {
        if table[i].Some? {
          table[i] := None;
        }
      }
      bindingList.Sweep(isShutdown);
      ShutdownSweepsAll(old(bindingList.contents));
    }
  }
}
