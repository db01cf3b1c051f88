// Capstone's customised mnemonics: a linked list that is edited in place, seen as a map from
// instruction ids to names.
module MnemonicModel {
  import opened Wrappers

  // One call of cs_option with CS_OPT_MNEMONIC; no mnemonic asks for a deletion.
  datatype Call = Call(id: nat, mnemonic: Option<string>)

  // The longest name that fits a buffer of 32 characters with its terminator.
  const LONGEST: nat := 31

  // A name as strncpy leaves it in the buffer.
  function Truncated(s: string): (t: string)
    ensures |t| <= LONGEST && t <= s && (|s| <= LONGEST ==> t == s)
    ensures |s| > LONGEST ==> |t| == LONGEST
  {
    if |s| <= LONGEST then s else s[..LONGEST]
  }

  function Customised(names: map<nat, string>, c: Call): map<nat, string>
  {
    if c.id == 0 then names
    else match c.mnemonic
      case Some(s) => names[c.id := Truncated(s)]
      case None => names - {c.id}
  }

  function CustomisedBy(calls: seq<Call>): map<nat, string>
  {
    if calls == [] then map[] else Customised(CustomisedBy(calls[..|calls| - 1]), calls[|calls| - 1])
  }

  // The last call about an id decides: the index of that call, or -1.
  function LastCall(calls: seq<Call>, id: nat): (i: int)
    ensures -1 <= i < |calls|
    ensures i >= 0 ==> calls[i].id == id
    ensures forall j :: i < j < |calls| ==> calls[j].id != id
  {
    if calls == [] then -1
    else if calls[|calls| - 1].id == id then |calls| - 1
    else LastCall(calls[..|calls| - 1], id)
  }

  // A name is in the map exactly if the last call about its id set it, and then it is that name.
  lemma {:induction false} LastCallDecides(calls: seq<Call>, id: nat)
    ensures var i := LastCall(calls, id);
      if id == 0 || i < 0 || calls[i].mnemonic.None? then id !in CustomisedBy(calls)
      else id in CustomisedBy(calls) && CustomisedBy(calls)[id] == Truncated(calls[i].mnemonic.value)
  {
    if calls != [] {
      LastCallDecides(calls[..|calls| - 1], id);
    }
  }

  // The list as a row of entries, with the map it stands for.

  datatype Entry = Entry(id: nat, name: string)

  predicate Proper(entries: seq<Entry>)
  {
    && (forall i, j :: 0 <= i < j < |entries| ==> entries[i].id != entries[j].id)
    && (forall i :: 0 <= i < |entries| ==> entries[i].id != 0 && |entries[i].name| <= LONGEST)
  }

  function Names(entries: seq<Entry>): map<nat, string>
  {
    if entries == [] then map[] else Names(entries[1..])[entries[0].id := entries[0].name]
  }

  function Without(entries: seq<Entry>, i: nat): seq<Entry>
    requires i < |entries|
  {
    entries[..i] + entries[i + 1..]
  }

  lemma {:induction false} Absent(entries: seq<Entry>, id: nat)
    requires forall i :: 0 <= i < |entries| ==> entries[i].id != id
    ensures id !in Names(entries)
  {
    if entries != [] {
      forall i | 0 <= i < |entries[1..]| ensures entries[1..][i].id != id {
        assert entries[1..][i] == entries[i + 1];
      }
      Absent(entries[1..], id);
    }
  }

  lemma {:induction false} Present(entries: seq<Entry>, i: nat)
    requires Proper(entries) && i < |entries|
    ensures entries[i].id in Names(entries) && Names(entries)[entries[i].id] == entries[i].name
  {
    if i > 0 {
      Present(entries[1..], i - 1);
    }
  }

  lemma {:induction false} Replaced(entries: seq<Entry>, i: nat, name: string)
    requires Proper(entries) && i < |entries| && |name| <= LONGEST
    ensures Proper(entries[i := Entry(entries[i].id, name)])
    ensures Names(entries[i := Entry(entries[i].id, name)]) == Names(entries)[entries[i].id := name]
  {
    var after := entries[i := Entry(entries[i].id, name)];
    if i == 0 {
      assert after[1..] == entries[1..];
    } else {
      Replaced(entries[1..], i - 1, name);
      assert after[1..] == entries[1..][i - 1 := Entry(entries[i].id, name)];
    }
  }

  lemma Added(entries: seq<Entry>, e: Entry)
    requires Proper(entries) && e.id != 0 && |e.name| <= LONGEST
    requires forall i :: 0 <= i < |entries| ==> entries[i].id != e.id
    ensures Proper([e] + entries) && Names([e] + entries) == Names(entries)[e.id := e.name]
  {
    assert ([e] + entries)[1..] == entries;
  }

  lemma StillProper(entries: seq<Entry>, i: nat)
    requires Proper(entries) && i < |entries|
    ensures Proper(Without(entries, i))
  {
    forall k | 0 <= k < |Without(entries, i)|
      ensures Without(entries, i)[k] == entries[if k < i then k else k + 1]
    {}
  }

  lemma {:induction false} Removed(entries: seq<Entry>, i: nat)
    requires Proper(entries) && i < |entries|
    ensures Names(Without(entries, i)) == Names(entries) - {entries[i].id}
  {
    var rest := entries[1..];
    if i == 0 {
      assert Without(entries, i) == rest;
      Absent(rest, entries[0].id);
    } else {
      Removed(rest, i - 1);
      assert Without(entries, i)[1..] == Without(rest, i - 1);
      UpdateThenRemove(Names(rest), entries[0].id, entries[0].name, entries[i].id);
    }
  }

  lemma UpdateThenRemove(names: map<nat, string>, id: nat, name: string, gone: nat)
    requires id != gone
    ensures (names - {gone})[id := name] == names[id := name] - {gone}
  {}
}

module Mnemonics {
  import opened MnemonicModel
  import opened Wrappers

  class Node {
    const id: nat
    var mnemonic: string
    var next: Node?

    constructor (id: nat, mnemonic: string, next: Node?)
      ensures this.id == id && this.mnemonic == mnemonic && this.next == next
    {
      this.id, this.mnemonic, this.next := id, mnemonic, next;
    }
  }

  class Handle {
    var list: Node?
    ghost var nodes: seq<Node>
    ghost var entries: seq<Entry>
    ghost var calls: seq<Call>      // the customisations made so far

    constructor ()
      ensures Faithful() && calls == []
    {
      list, nodes, entries, calls := null, [], [], [];
    }

    // The pointers lead along the nodes, and end with them.
    ghost predicate Linked()
      reads this, nodes
    {
      && list == (if nodes == [] then null else nodes[0])
      && (forall i, j :: 0 <= i && j == i + 1 && j < |nodes| ==> nodes[i].next == nodes[j])
      && (nodes != [] ==> nodes[|nodes| - 1].next == null)
    }

    ghost predicate Holds()
      reads this, nodes
    {
      && |nodes| == |entries|
      && forall i :: 0 <= i < |nodes| ==> nodes[i].id == entries[i].id && nodes[i].mnemonic == entries[i].name
    }

    ghost predicate Valid()
      reads this, nodes
    {
      Linked() && Holds() && Proper(entries)
    }

    // The list holds what the calls so far amount to.
    ghost predicate Faithful()
      reads this, nodes
    {
      Valid() && Names(entries) == CustomisedBy(calls)
    }

    // The list is acyclic: following next never comes back.
    lemma Acyclic()
      requires Valid()
      ensures forall i, j :: 0 <= i < j < |nodes| ==> nodes[i] != nodes[j]
    {}

    // The node with this id, and the one before it.
    method Find(id: nat) returns (tmp: Node?, prev: Node?, ghost i: nat)
      requires Valid()
      ensures i <= |nodes| && tmp == (if i < |nodes| then nodes[i] else null)
      ensures tmp != null ==> tmp.id == id && prev == if i == 0 then tmp else nodes[i - 1]
      ensures tmp != null ==> (id in Names(entries) && Names(entries)[id] == tmp.mnemonic)
      ensures tmp == null ==> (id !in Names(entries) && forall j :: 0 <= j < |entries| ==> entries[j].id != id)
    {
      tmp := list;
      prev := tmp;
      i := 0;
      while tmp != null && tmp.id != id
        invariant i <= |nodes| && tmp == if i < |nodes| then nodes[i] else null
        invariant tmp != null ==> prev == if i == 0 then tmp else nodes[i - 1]
        invariant forall j :: 0 <= j < i ==> entries[j].id != id
        decreases |nodes| - i
      {
        prev := tmp;
        tmp := tmp.next;
        i := i + 1;
      }
      if tmp == null {
        Absent(entries, id);
      } else {
        Present(entries, i);
      }
    }

    method Replace(tmp: Node, ghost i: nat, mnemonic: string)
      requires Valid() && i < |nodes| && tmp == nodes[i]
      modifies this`entries, tmp`mnemonic
      ensures Valid() && Names(entries) == old(Names(entries))[tmp.id := Truncated(mnemonic)]
    {
      Replaced(entries, i, Truncated(mnemonic));
      tmp.mnemonic := Truncated(mnemonic);
      entries := entries[i := Entry(tmp.id, Truncated(mnemonic))];
    }

    method Insert(id: nat, mnemonic: string)
      requires Valid() && id != 0 && forall j :: 0 <= j < |entries| ==> entries[j].id != id
      modifies this`list, this`nodes, this`entries
      ensures Valid() && Names(entries) == old(Names(entries))[id := Truncated(mnemonic)]
      ensures |nodes| == |old(nodes)| + 1 && nodes[1..] == old(nodes) && fresh(nodes[0])
    {
      Added(entries, Entry(id, Truncated(mnemonic)));
      var tmp := new Node(id, Truncated(mnemonic), list);
      list := tmp;
      nodes, entries := [tmp] + nodes, [Entry(id, Truncated(mnemonic))] + entries;
    }

    method UnlinkHead(tmp: Node)
      requires Valid() && nodes != [] && tmp == nodes[0]
      modifies this`list, this`nodes, this`entries
      ensures Valid() && nodes == old(nodes)[1..] && Names(entries) == old(Names(entries)) - {tmp.id}
    {
      hide Names, Proper;
      Removed(entries, 0);
      StillProper(entries, 0);
      assert Without(entries, 0) == entries[1..];
      list := tmp.next;
      nodes, entries := nodes[1..], entries[1..];
    }

    method UnlinkAfter(tmp: Node, prev: Node, ghost i: nat)
      requires Valid() && 0 < i < |nodes| && tmp == nodes[i] && prev == nodes[i - 1]
      modifies this`nodes, this`entries, prev`next
      ensures Valid() && nodes == old(nodes)[..i] + old(nodes)[i + 1..]
      ensures Names(entries) == old(Names(entries)) - {tmp.id}
    {
      Removed(entries, i);
      StillProper(entries, i);
      prev.next := tmp.next;
      nodes, entries := nodes[..i] + nodes[i + 1..], Without(entries, i);
    }

    // cs_option with CS_OPT_MNEMONIC.
    method OptMnemonic(id: nat, mnemonic: Option<string>)
      requires Faithful()
      modifies this, nodes
      ensures Faithful() && calls == old(calls) + [Call(id, mnemonic)]
    {
      Customise(id, mnemonic);
      calls := calls + [Call(id, mnemonic)];
    }

    // The list edited: replace, insert or delete.
    method Customise(id: nat, mnemonic: Option<string>)
      requires Valid()
      modifies this`list, this`nodes, this`entries, nodes
      ensures Valid() && Names(entries) == Customised(old(Names(entries)), Call(id, mnemonic))
    {
      if id != 0 {
        var tmp, prev, i := Find(id);
        if mnemonic.Some? {
          if tmp != null {
            Replace(tmp, i, mnemonic.value);
          } else {
            Insert(id, mnemonic.value);
          }
        } else if tmp != null {
          if tmp == prev {
            UnlinkHead(tmp);
          } else {
            UnlinkAfter(tmp, prev, i);
          }
        }
      }
    }

    // The mnemonic fill_insn leaves for an instruction: the last one set for its id and not deleted
    // since, cut to the buffer, or else the one printed.
    method FillMnemonic(id: nat, printed: string) returns (mnemonic: string)
      requires Faithful()
      ensures var i := LastCall(calls, id);
        if id == 0 || i < 0 || calls[i].mnemonic.None? then mnemonic == printed
        else
          var name := calls[i].mnemonic.value;
          mnemonic == if |name| < 32 then name else name[..31]
    {
      LastCallDecides(calls, id);
      mnemonic := printed;
      if list != null {
        var tmp, prev, i := Find(id);
        if tmp != null {
          mnemonic := Truncated(tmp.mnemonic);
        }
      }
    }
  }
}
