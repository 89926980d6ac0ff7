/** One node's end of the flood: its peers, its inbox, and what each call sends. */
module MessageBrokers {
  import opened Prelude
  import opened RequestQueues
  import opened Flood

  datatype MessageData = MessageData(command: string, args: seq<string>, sender: Id, isBroadcast: bool,
      visited: seq<Id>)

  /** A remote call that delivers a message into another node's inbox. */
  datatype Sent = Sent(to: Id, message: MessageData)

  /** The calls as the paths of the flood. */
  function Paths(sent: seq<Sent>): multiset<Path> {
    multiset(seq(|sent|, i requires 0 <= i < |sent| => sent[i].message.visited + [sent[i].to]))
  }

  /** Each of the `targets` is sent the message, once, and nobody else. */
  ghost predicate SentTo(sent: seq<Sent>, targets: set<Id>, message: MessageData) {
    && (forall i | 0 <= i < |sent| :: sent[i].to in targets && sent[i].message == message)
    && (forall p | p in targets :: exists i | 0 <= i < |sent| :: sent[i].to == p)
    && (forall i, j | 0 <= i < j < |sent| :: sent[i].to != sent[j].to)
  }

  lemma SentToOneMore(sent: seq<Sent>, done: set<Id>, p: Id, message: MessageData)
    requires SentTo(sent, done, message) && p !in done
    ensures SentTo(sent + [Sent(p, message)], done + {p}, message)
  {
    var sent' := sent + [Sent(p, message)];
    forall q | q in done + {p}
      ensures exists i | 0 <= i < |sent'| :: sent'[i].to == q
    {
      if q == p {
        assert sent'[|sent|].to == q;
      } else {
        var i :| 0 <= i < |sent| && sent[i].to == q;
        assert sent'[i].to == q;
      }
    }
  }

  lemma PathsGrow(sent: seq<Sent>, x: Sent)
    ensures Paths(sent + [x]) == Paths(sent) + multiset{x.message.visited + [x.to]}
  {
    var before := seq(|sent|, i requires 0 <= i < |sent| => sent[i].message.visited + [sent[i].to]);
    var after := seq(|sent| + 1,
        i requires 0 <= i < |sent| + 1 => (sent + [x])[i].message.visited + [(sent + [x])[i].to]);
    assert after == before + [x.message.visited + [x.to]];
  }

  lemma ForwardsGrow(done: set<Id>, p: Id, path: Path)
    requires p !in done
    ensures Forwards(done + {p}, {}, path) == Forwards(done, {}, path) + multiset{path + [p]}
  {
    forall m
      ensures Forwards(done + {p}, {}, path)[m] == (Forwards(done, {}, path) + multiset{path + [p]})[m]
    {
      ForwardsAre(done + {p}, {}, path, m);
      ForwardsAre(done, {}, path, m);
      if m != [] && Front(m) == path { assert m == path + [End(m)]; }
    }
  }

  class SynchronousGRPC {
    const nodeId: Id
    var peers: set<Id>
    const incomingMessages: RequestQueue<MessageData>

    ghost predicate Valid()
      reads this, incomingMessages
    {
      incomingMessages.Valid()
    }

    constructor (nodeId: Id)
      ensures Valid() && this.nodeId == nodeId && peers == {} && incomingMessages.Contents() == []
              && fresh(incomingMessages)
    {
      this.nodeId, peers := nodeId, {};
      incomingMessages := new RequestQueue<MessageData>(1000);
    }

    method AddPeer(peer: Id)
      modifies this`peers
      ensures peers == old(peers) + {peer}
    {
      peers := peers + {peer};
    }

    /** The same message to each of `targets`, in whatever order. */
    method SendAll(targets: set<Id>, message: MessageData) returns (sent: seq<Sent>)
      ensures Paths(sent) == Forwards(targets, {}, message.visited) && SentTo(sent, targets, message)
    {
      sent := [];
      var todo := targets;
      assert Forwards(targets - todo, {}, message.visited) == multiset{};
      while todo != {}
        invariant todo <= targets && Paths(sent) == Forwards(targets - todo, {}, message.visited)
        invariant SentTo(sent, targets - todo, message)
      {
        var p :| p in todo;
        PathsGrow(sent, Sent(p, message));
        ForwardsGrow(targets - todo, p, message.visited);
        SentToOneMore(sent, targets - todo, p, message);
        assert targets - (todo - {p}) == targets - todo + {p};
        sent := sent + [Sent(p, message)];
        todo := todo - {p};
      }
      assert targets - todo == targets;
    }

    /** To every peer; with no peers, to nobody. These are the messages the flood starts with. */
    method Broadcast(command: string, args: seq<string>) returns (sent: seq<Sent>)
      ensures Paths(sent) == Flood.Broadcast(map[nodeId := peers], nodeId).inflight
      ensures SentTo(sent, peers, MessageData(command, args, nodeId, true, [nodeId]))
    {
      if peers == {} {
        return [];
      }
      sent := SendAll(peers, MessageData(command, args, nodeId, true, [nodeId]));
    }

    /** To a known peer only. */
    method Send(command: string, args: seq<string>, recipient: Id) returns (r: Result<Sent>)
      ensures r.Success? <==> recipient in peers
      ensures r.Success? ==> r.value == Sent(recipient, MessageData(command, args, nodeId, false, []))
    {
      if recipient !in peers {
        return Failure;
      }
      return Success(Sent(recipient, MessageData(command, args, nodeId, false, [])));
    }

    /** The remote call itself: the message joins the inbox. */
    method ExecuteMessage(message: MessageData)
      requires Valid()
      modifies incomingMessages, incomingMessages.requests
      ensures Valid() && incomingMessages.Contents() == old(incomingMessages.Contents()) + [Some(message)]
    {
      incomingMessages.Enqueue(Some(message));
    }

    /** What an inbox thread does with a message: drop it, or send it on (a broadcast) and execute its command. */
    method Handle(message: MessageData) returns (sent: seq<Sent>, acted: bool)
      ensures !message.isBroadcast ==> acted && sent == []
      ensures !acted ==> sent == []
      ensures message.isBroadcast ==>
                var s := State(map[nodeId := peers], multiset{message.visited + [nodeId]}, multiset{});
                var s' := Take(s, message.visited + [nodeId]);
                Paths(sent) == s'.inflight && (acted <==> message.visited + [nodeId] in s'.executed)
      ensures message.isBroadcast && acted ==>
                SentTo(sent, peers - Nodes(message.visited), message.(visited := message.visited + [nodeId]))
    {
      sent := [];
      if message.isBroadcast {
        ghost var m := message.visited + [nodeId];
        assert Front(m) == message.visited && End(m) == nodeId;
        var visited := Nodes(message.visited);
        if nodeId in visited {
          return [], false;
        }
        sent := SendAll(peers - visited, message.(visited := message.visited + [nodeId]));
        SameForwards(peers, visited, m);
      }
      acted := true;
    }

    lemma SameForwards(ps: set<Id>, visited: set<Id>, path: Path)
      ensures Forwards(ps - visited, {}, path) == Forwards(ps, visited, path)
    {
    }

    /** One turn of an inbox thread: the oldest message, if there is one. */
    method InboxTurn() returns (taken: Option<MessageData>, sent: seq<Sent>, acted: bool)
      requires Valid()
      modifies incomingMessages`start, incomingMessages`count
      ensures Valid()
      ensures old(incomingMessages.Contents()) == [] ==> taken == None && incomingMessages.Contents() == []
      ensures old(incomingMessages.Contents()) != [] ==>
              [taken] + incomingMessages.Contents() == old(incomingMessages.Contents())
      ensures !acted ==> sent == []
      ensures acted <==> taken.Some? && (taken.value.isBroadcast ==> nodeId !in taken.value.visited)
      ensures acted && !taken.value.isBroadcast ==> sent == []
      ensures taken.Some? && taken.value.isBroadcast && acted ==>
                && SentTo(sent, peers - Nodes(taken.value.visited),
                          taken.value.(visited := taken.value.visited + [nodeId]))
                && Paths(sent) == Forwards(peers, Nodes(taken.value.visited), taken.value.visited + [nodeId])
    {
      taken := incomingMessages.Dequeue();
      sent, acted := [], false;
      if taken.Some? {
        sent, acted := Handle(taken.value);
        ghost var m := taken.value.visited + [nodeId];
        assert Front(m) == taken.value.visited && End(m) == nodeId;
      }
    }
  }
}
