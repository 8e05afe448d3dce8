/** src/enet/list.c: circular doubly linked lists whose nodes are spliced in place. */
module LinkedList {
  // A node of a queue; only a list's sentinel carries nothing.
  class Node<T> {
    var next: Node<T>
    var previous: Node<T>
    const data: seq<T>

    constructor (data: seq<T>)
      ensures this.data == data
    {
      this.data := data;
      next, previous := this, this;
    }
  }

  // The nodes in order, the sentinel standing before the first and after the last.
  ghost function At<T>(s: Node<T>, nodes: seq<Node<T>>, i: int): Node<T> {
    if 0 <= i < |nodes| then nodes[i] else s
  }

  ghost predicate Joined<T>(s: Node<T>, nodes: seq<Node<T>>, i: int)
    reads At(s, nodes, i), At(s, nodes, i + 1)
  {
    At(s, nodes, i).next == At(s, nodes, i + 1) && At(s, nodes, i + 1).previous == At(s, nodes, i)
  }

  ghost predicate Distinct<T>(s: Node<T>, nodes: seq<Node<T>>) {
    && s !in nodes
    && forall i, j :: 0 <= i < j < |nodes| ==> nodes[i] != nodes[j]
  }

  ghost predicate Carrying<T>(nodes: seq<Node<T>>) {
    forall i :: 0 <= i < |nodes| ==> |nodes[i].data| == 1
  }

  ghost function Values<T>(nodes: seq<Node<T>>): seq<T>
    requires Carrying(nodes)
  {
    seq(|nodes|, i requires 0 <= i < |nodes| => nodes[i].data[0])
  }

  ghost predicate Ring<T>(s: Node<T>, nodes: seq<Node<T>>)
    reads s, nodes
  {
    && Distinct(s, nodes)
    && Carrying(nodes)
    && forall i {:trigger Joined(s, nodes, i)} :: -1 <= i < |nodes| ==> Joined(s, nodes, i)
  }

  // The links within a run of nodes taken out of a list.
  ghost predicate Linked<T>(run: seq<Node<T>>, k: nat)
    requires k + 1 < |run|
    reads run[k], run[k + 1]
  {
    run[k].next == run[k + 1] && run[k + 1].previous == run[k]
  }

  ghost predicate Chain<T>(run: seq<Node<T>>)
    reads run
  {
    forall k {:trigger Linked(run, k)} :: 0 <= k < |run| - 1 ==> Linked(run, k)
  }

  lemma Spliced<T>(s: Node<T>, there: seq<Node<T>>, run: seq<Node<T>>, p: nat)
    requires Distinct(s, there) && Distinct(s, run) && (forall n :: n in run ==> n !in there)
    requires Carrying(there) && Carrying(run) && run != [] && p <= |there| && Chain(run)
    requires forall k {:trigger Joined(s, there, k)} :: -1 <= k < |there| && k != p - 1 ==> Joined(s, there, k)
    requires At(s, there, p - 1).next == run[0] && run[0].previous == At(s, there, p - 1)
    requires run[|run| - 1].next == At(s, there, p) && At(s, there, p).previous == run[|run| - 1]
    ensures Ring(s, there[..p] + run + there[p..])
  {
    var nodes := there[..p] + run + there[p..];
    assert forall k :: 0 <= k < |run| ==> run[k] in run && run[k] !in there;
    assert forall k :: 0 <= k < |there| ==> there[k] in there;
    assert s !in nodes;
    forall k | -1 <= k < |nodes| ensures Joined(s, nodes, k) {
      if p <= k < p + |run| - 1 {
        assert Linked(run, k - p);
      } else if k != p - 1 && k != p + |run| - 1 {
        assert Joined(s, there, if k < p then k else k - |run|);
      }
    }
  }

  class List<T> {
    const sentinel: Node<T>
    ghost var nodes: seq<Node<T>>

    ghost predicate Valid()
      reads this, sentinel, nodes
    {
      Ring(sentinel, nodes)
    }

    ghost function Contents(): seq<T>
      reads this, sentinel, nodes
      requires Valid()
    {
      Values(nodes)
    }

    // enet_list_clear
    constructor ()
      ensures Valid() && nodes == [] && fresh(sentinel)
    {
      sentinel := new Node([]);
      nodes := [];
      new;
      sentinel.next, sentinel.previous := sentinel, sentinel;
    }

    // enet_list_insert
    method Insert(position: Node<T>, result: Node<T>, ghost i: nat)
      requires Valid() && i <= |nodes| && position == At(sentinel, nodes, i)
      requires result != sentinel && result !in nodes && |result.data| == 1
      modifies this, sentinel, nodes, result
      ensures Valid() && nodes == old(nodes[..i]) + [result] + old(nodes[i..])
    {
      ghost var was := nodes;
      assert Joined(sentinel, was, i - 1);
      result.previous := position.previous;
      result.next := position;
      result.previous.next := result;
      position.previous := result;
      nodes := nodes[..i] + [result] + nodes[i..];
      forall j | -1 <= j < |nodes| ensures Joined(sentinel, nodes, j) {
        assert old(Joined(sentinel, nodes, if j < i then j else j - 1));
      }
    }

    // enet_list_remove
    method Remove(position: Node<T>, ghost i: nat)
      requires Valid() && i < |nodes| && position == nodes[i]
      modifies this, sentinel, nodes
      ensures Valid() && nodes == old(nodes[..i]) + old(nodes[i + 1..])
    {
      ghost var was := nodes;
      assert Joined(sentinel, was, i - 1) && Joined(sentinel, was, i);
      position.previous.next := position.next;
      position.next.previous := position.previous;
      nodes := nodes[..i] + nodes[i + 1..];
      forall j | -1 <= j < |nodes| ensures Joined(sentinel, nodes, j) {
        assert old(Joined(sentinel, nodes, if j < i then j else j + 1));
      }
    }

    // enet_list_move, from one list into another.
    method Move(to: List<T>, position: Node<T>, first: Node<T>, last: Node<T>, ghost p: nat, ghost i: nat, ghost j: nat)
      requires Valid() && to.Valid() && Apart(to)
      requires p <= |to.nodes| && position == At(to.sentinel, to.nodes, p)
      requires i < j <= |nodes| && first == nodes[i] && last == nodes[j - 1]
      modifies this, sentinel, nodes, to, to.sentinel, to.nodes
      ensures Valid() && to.Valid() && Apart(to)
      ensures nodes == old(nodes[..i]) + old(nodes[j..])
      ensures to.nodes == old(to.nodes[..p]) + old(nodes[i..j]) + old(to.nodes[p..])
    {
      hide Ring, Chain, Carrying, Distinct, At, Apart;
      ghost var run, rest, there := nodes[i..j], nodes[..i] + nodes[j..], to.nodes;
      RunApart(to, i, j);
      Cut(first, last, i, j);
      assert nodes == rest;
      label Between:
      to.Splice(position, first, last, p, run);
      assert nodes == rest && unchanged@Between(this, sentinel, nodes);
      StaysApart(to, there[..p], run, there[p..]);
    }

    lemma RunApart(to: List<T>, i: nat, j: nat)
      requires Valid() && Apart(to) && i < j <= |nodes|
      ensures this != to && sentinel != to.sentinel && sentinel !in to.nodes
      ensures Distinct(to.sentinel, nodes[i..j]) && Carrying(nodes[i..j])
      ensures forall n :: n in nodes[i..j] ==> n !in to.nodes && n !in nodes[..i] + nodes[j..] && n != sentinel
      ensures var rest := nodes[..i] + nodes[j..];
        forall k :: 0 <= k < |rest| ==> rest[k] !in to.nodes && rest[k] != to.sentinel && rest[k] !in nodes[i..j]
      ensures forall k :: 0 <= k < |to.nodes| ==> to.nodes[k] !in nodes && to.nodes[k] != sentinel
      ensures to.sentinel !in nodes && sentinel !in nodes
    {
    }

    lemma StaysApart(to: List<T>, a: seq<Node<T>>, run: seq<Node<T>>, b: seq<Node<T>>)
      requires this != to && sentinel != to.sentinel && to.nodes == a + run + b
      requires sentinel !in a + run + b && to.sentinel !in nodes
      requires forall k :: 0 <= k < |nodes| ==> nodes[k] !in a && nodes[k] !in run && nodes[k] !in b
      ensures Apart(to)
    {
      assert forall n :: n in to.nodes ==> n in a || n in run || n in b;
      assert forall j :: 0 <= j < |to.nodes| ==> to.nodes[j] in to.nodes;
    }

    // Its first two assignments.
    method Cut(first: Node<T>, last: Node<T>, ghost i: nat, ghost j: nat)
      requires Valid() && i < j <= |nodes| && first == nodes[i] && last == nodes[j - 1]
      modifies this, sentinel, nodes
      ensures Valid() && nodes == old(nodes[..i]) + old(nodes[j..])
      ensures Chain(old(nodes[i..j]))
    {
      ghost var here := nodes;
      assert Joined(sentinel, here, i - 1) && Joined(sentinel, here, j - 1);
      first.previous.next := last.next;
      last.next.previous := first.previous;
      nodes := nodes[..i] + nodes[j..];
      forall k | -1 <= k < |nodes| ensures Joined(sentinel, nodes, k) {
        assert old(Joined(sentinel, here, if k < i then k else k + (j - i)));
      }
      forall k | 0 <= k < j - i - 1 ensures Linked(here[i..j], k) {
        assert old(Joined(sentinel, here, k + i));
      }
    }

    // Its last four.
    method Splice(position: Node<T>, first: Node<T>, last: Node<T>, ghost p: nat, ghost run: seq<Node<T>>)
      requires Valid() && p <= |nodes| && position == At(sentinel, nodes, p)
      requires run != [] && first == run[0] && last == run[|run| - 1]
      requires Distinct(sentinel, run) && Carrying(run) && Chain(run) && forall n :: n in run ==> n !in nodes
      modifies this, sentinel, nodes, run
      ensures Valid() && nodes == old(nodes[..p]) + run + old(nodes[p..])
    {
      ghost var there := nodes;
      assert Joined(sentinel, there, p - 1);
      assert position !in run && position.previous !in run;
      assert forall k :: 0 <= k < |run| ==> run[k] in run;
      first.previous := position.previous;
      last.next := position;
      first.previous.next := first;
      position.previous := last;
      forall k {:trigger Linked(run, k)} | 0 <= k < |run| - 1 ensures Linked(run, k) {
        assert old(Linked(run, k));
      }
      forall k {:trigger Joined(sentinel, there, k)} | -1 <= k < |there| && k != p - 1
        ensures Joined(sentinel, there, k)
      {
        assert old(Joined(sentinel, there, k));
      }
      Spliced(sentinel, there, run, p);
      nodes := nodes[..p] + run + nodes[p..];
    }

    // Two lists share no node.
    ghost predicate Apart(other: List<T>)
      reads this, other
    {
      && this != other && sentinel != other.sentinel
      && sentinel !in other.nodes && other.sentinel !in nodes
      && forall i, j :: 0 <= i < |nodes| && 0 <= j < |other.nodes| ==> nodes[i] != other.nodes[j]
    }
  }
}
