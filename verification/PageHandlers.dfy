/** The handlers of the page protocol as the directory runs them, updating the table, the events and
    the counters in place. */
module PageHandlers {
  import opened PageTable

  class PageDirectory {
    const table: array<Page>
    var events: seq<Event>
    var pr: int
    var pw: int
    var sr: int
    var sw: int
    var total: int
    const classify: bool
    const contexts: nat

    ghost function View(): State
      reads this, table
    {
      State(table[..], events, Counters(pr, pw, sr, sw, total), classify, contexts)
    }

    constructor (size: nat, classify: bool, contexts: nat)
      ensures fresh(table)
      ensures View() == State(seq(size, _ => BLANK), [], Counters(0, 0, 0, 0, 0), classify, contexts)
    {
      table := new Page[size](_ => BLANK);
      events := [];
      pr, pw, sr, sw, total := 0, 0, 0, 0, 0;
      this.classify, this.contexts := classify, contexts;
    }

    /** Opens or closes page k in a state, and turns event i into e. */
    method Settle(i: nat, k: nat, busy: bool, state: PageState, e: Event)
      requires i < |events| && k < table.Length
      modifies table, this`events
      ensures View() == SetEvent(SetPage(old(View()), k, busy, state), i, e)
    {
      table[k] := table[k].(busy := busy, state := state);
      events := events[i := e];
    }

    /** Tells every thread to drop the page. */
    method Spread(i: nat, k: nat, vpn: nat, fromMiss: bool)
      requires i < |events| && k < table.Length
      modifies table, this
      ensures View() == SpreadRecovery(old(View()), i, k, vpn, fromMiss)
    {
      sr := sr - 1;
      sw := sw + 1;
      table[k] := table[k].(busy := true, state := SharedWrite);
      ghost var before := events;
      events := events[i := Parent(vpn, contexts, fromMiss)];
      for t := 0 to contexts
        invariant events == before[i := Parent(vpn, contexts, fromMiss)] + Broadcast(vpn, i, t)
        invariant table[..] == old(table[..])[k := old(table[k]).(busy := true, state := SharedWrite)]
        invariant pr == old(pr) && pw == old(pw) && sr == old(sr) - 1 && sw == old(sw) + 1 && total == old(total)
      {
        events := events + [Child(vpn, i, false)];
      }
    }

    method TakeMiss(i: nat) returns (ok: bool)
      requires i < |events| && events[i].Miss?
      modifies table, this
      ensures ServeMiss(old(View()), i) == if ok then Ok(View()) else Panic
    {
      var vpn, tid, cmd := events[i].vpn, events[i].tid, events[i].cmd;
      var full, found, k := PageTableCheck(table, vpn);
      if full { return false; }
      ok := true;
      if !found {
        total := total + 1;
        if cmd == Read { pr := pr + 1; } else { pw := pw + 1; }
        var state := SharedWrite;
        if classify { state := if cmd == Read then PrivateRead else PrivateWrite; }
        table[k] := Page(true, true, vpn, tid, state);
        events := events[i := RefillWait(vpn)];
      } else if !table[k].busy {
        ok := TakeMissOnPage(i, k);
      }
    }

    /** A miss on a page that is there and open. */
    method TakeMissOnPage(i: nat, k: nat) returns (ok: bool)
      requires i < |events| && events[i].Miss? && Matches(table[..], events[i].vpn)
      requires k == Where(table[..], events[i].vpn) && !table[k].busy
      modifies table, this
      ensures ok && ServeMiss(old(View()), i) == Ok(View())
    {
      var vpn, tid, cmd := events[i].vpn, events[i].tid, events[i].cmd;
      ok := true;
      match table[k].state {
        case PrivateRead =>
          if table[k].keeper == tid {
            if cmd == Write {
              pr := pr - 1;
              pw := pw + 1;
            }
            Settle(i, k, true, if cmd == Read then PrivateRead else PrivateWrite, RefillWait(vpn));
          } else {
            pr := pr - 1;
            if cmd == Read { sr := sr + 1; } else { sw := sw + 1; }
            Settle(i, k, true, if cmd == Read then SharedRead else SharedWrite,
                   if cmd == Read then Update(vpn) else Recovery(vpn));
          }
        case PrivateWrite =>
          if table[k].keeper == tid {
            Settle(i, k, true, PrivateWrite, RefillWait(vpn));
          } else {
            pw := pw - 1;
            sw := sw + 1;
            Settle(i, k, true, SharedWrite, Recovery(vpn));
          }
        case SharedRead =>
          if cmd == Read { Settle(i, k, true, SharedRead, RefillWait(vpn)); } else { Spread(i, k, vpn, true); }
        case SharedWrite => Settle(i, k, true, SharedWrite, RefillWait(vpn));
      }
    }

    method TakeSrRecovery(i: nat) returns (ok: bool)
      requires i < |events| && events[i].SrRecovery?
      modifies table, this
      ensures ServeSrRecovery(old(View()), i) == if ok then Ok(View()) else Panic
    {
      var vpn := events[i].vpn;
      var full, found, k := PageTableCheck(table, vpn);
      if full || !found { return false; }
      ok := true;
      if table[k].busy {
        match table[k].state {
          case SharedRead =>
          case SharedWrite => events := events[i := Free];
          case _ => ok := false;
        }
      } else {
        Spread(i, k, vpn, false);
      }
    }

    method TakeWriteBack(i: nat) returns (ok: bool)
      requires i < |events| && events[i].WriteBack?
      modifies table, this
      ensures ServeWriteBack(old(View()), i) == if ok then Ok(View()) else Panic
    {
      var full, found, k := PageTableCheck(table, events[i].vpn);
      if full || !found { return false; }
      ok := true;
      if !table[k].busy {
        match table[k].state {
          case PrivateRead =>
            pr := pr - 1;
            pw := pw + 1;
            Settle(i, k, false, PrivateWrite, Free);
          case PrivateWrite => Settle(i, k, false, PrivateWrite, Free);
          case SharedRead => ok := false;
          case SharedWrite => events := events[i := Free];
        }
      }
    }

    method TakeUpdateAck(i: nat) returns (ok: bool)
      requires i < |events| && events[i].UpdateAck?
      modifies table, this
      ensures ServeUpdateAck(old(View()), i) == if ok then Ok(View()) else Panic
    {
      var vpn, to := events[i].vpn, events[i].to;
      var full, found, k := PageTableCheck(table, vpn);
      if full || !found { return false; }
      ok := true;
      if to == SharedWrite {
        sr := sr - 1;
        sw := sw + 1;
      }
      Settle(i, k, true, to, RefillWait(vpn));
    }

    /** The acknowledgement of one child of a broadcast. */
    method TakeChildAck(i: nat) returns (ok: bool)
      requires i < |events| && events[i].Child? && events[i].parent < |events|
      requires events[events[i].parent].Parent? && events[i].parent != i
      modifies table, this
      ensures ServeChildAck(old(View()), i) == if ok then Ok(View()) else Panic
    {
      var p := events[i].parent;
      var vpn, left, fromMiss := events[p].vpn, events[p].childCount - 1, events[p].fromMiss;
      ok := true;
      if left != 0 {
        events := events[i := Free][p := Parent(vpn, left, fromMiss)];
      } else {
        var full, found, k := PageTableCheck(table, vpn);
        if full { return false; }
        table[k] := table[k].(busy := fromMiss, state := SharedWrite);
        events := events[i := Free][p := if fromMiss then RefillWait(vpn) else Free];
      }
    }
  }
}
