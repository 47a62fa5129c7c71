/** The four queues a multi-get keeps in step: values to unserialize, with their keys, flags and servers. */
module LockStep {
  import opened Queue

  datatype Entry<T> = Entry(value: Ptr<T>, key: Ptr<T>, flags: Ptr<T>, server: Ptr<T>)

  class Pending<T(==)> {
    const values: PtrQueue<T>
    const keys: PtrQueue<T>
    const flags: PtrQueue<T>
    const servers: PtrQueue<T>
    // what was pushed and not yet taken out
    ghost var entries: seq<Entry<T>>

    ghost function Queues(): set<PtrQueue<T>> {
      {values, keys, flags, servers}
    }

    ghost function Buffers(): set<array<Ptr<T>>>
      reads Queues()
    {
      {values.items, keys.items, flags.items, servers.items}
    }

    ghost predicate Apart()
      reads values, keys, flags, servers
    {
      && values != keys && values != flags && values != servers && keys != flags && keys != servers && flags != servers
      && values.items != keys.items && values.items != flags.items && values.items != servers.items
      && keys.items != flags.items && keys.items != servers.items && flags.items != servers.items
    }

    ghost predicate AllValid()
      reads values, keys, flags, servers, values.items, keys.items, flags.items, servers.items
    {
      Apart() && values.Valid() && keys.Valid() && flags.Valid() && servers.Valid()
    }

    ghost predicate Valid()
      reads this, Queues(), Buffers()
    {
      && AllValid()
      && |entries| == |values.contents| == |keys.contents| == |flags.contents| == |servers.contents|
      && forall i :: 0 <= i < |entries| ==>
           entries[i] == Entry(values.contents[i], keys.contents[i], flags.contents[i], servers.contents[i])
    }

    constructor ()
      ensures Valid() && entries == [] && fresh(Queues()) && fresh(Buffers())
    {
      values := new PtrQueue<T>();
      keys := new PtrQueue<T>();
      flags := new PtrQueue<T>();
      servers := new PtrQueue<T>();
      entries := [];
    }

    method Push(e: Entry<T>)
      requires Valid()
      modifies this, Queues(), Buffers()
      ensures Valid() && entries == old(entries) + [e] && fresh(Buffers() - old(Buffers()))
    {
      hide PtrQueue.Valid;
      values.Push(e.value);
      assert AllValid();
      keys.Push(e.key);
      assert AllValid();
      flags.Push(e.flags);
      assert AllValid();
      servers.Push(e.server);
      assert AllValid();
      entries := entries + [e];
    }

    method PopValue() returns (value: Ptr<T>)
      requires AllValid()
      modifies values
      ensures AllValid()
      ensures if old(values.contents) == [] then value == Null && values.contents == []
              else value == old(values.contents)[0] && values.contents == old(values.contents)[1..]
      ensures keys.contents == old(keys.contents) && flags.contents == old(flags.contents)
      ensures servers.contents == old(servers.contents)
    {
      hide PtrQueue.Valid;
      value := values.Pop();
    }

    /** Pops what belongs to the value just popped. */
    method PopRest() returns (key: Ptr<T>, flag: Ptr<T>, server: Ptr<T>)
      requires AllValid() && keys.contents != [] && flags.contents != [] && servers.contents != []
      modifies keys, flags, servers
      ensures AllValid() && values.contents == old(values.contents)
      ensures key == old(keys.contents[0]) && keys.contents == old(keys.contents[1..])
      ensures flag == old(flags.contents[0]) && flags.contents == old(flags.contents[1..])
      ensures server == old(servers.contents[0]) && servers.contents == old(servers.contents[1..])
    {
      hide PtrQueue.Valid;
      key := keys.Pop();
      flag := flags.Pop();
      server := servers.Pop();
    }

    /** Takes everything out again, in the order it was pushed; the loop ends at a NULL value. */
    method Drain() returns (out: seq<Entry<T>>)
      requires Valid() && forall e <- entries :: e.value != Null
      modifies this, Queues()
      ensures Valid() && out == old(entries) && entries == []
    {
      hide AllValid;
      out := [];
      ghost var all := entries;
      ghost var V, K, F, S := values.contents, keys.contents, flags.contents, servers.contents;
      assert Null !in V by {
        assert forall i :: 0 <= i < |V| ==> V[i] == all[i].value && all[i] in all;
      }
      var value := PopValue();
      while value != Null
        invariant AllValid() && |out| <= |all| && out == all[..|out|]
        invariant if |out| < |all| then value == V[|out|] && values.contents == V[|out| + 1..]
                  else value == Null && values.contents == []
        invariant keys.contents == K[|out|..] && flags.contents == F[|out|..] && servers.contents == S[|out|..]
        decreases |all| - |out|
      {
        var key, flag, server := PopRest();
        assert all[|out|] == Entry(value, key, flag, server);
        out := out + [Entry(value, key, flag, server)];
        value := PopValue();
      }
      assert all[|out|..] == [] by {
        assert out == all[..|out|];
        if |out| < |all| {
          assert false;
        }
      }
      entries := [];
    }
  }
}
