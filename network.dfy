/** The road network the shuttle is grafted onto: nodes and links indexed by id,
    grown in place by adding nodes and links. */
module Network {
  import opened Entities

  class Network {
    var nodes: map<NodeId, Node>
    var links: map<LinkId, Link>

    /** Every record is filed under its own id and every link joins two nodes of the network. */
    ghost predicate Valid()
      reads this
    {
      && (forall n :: n in nodes ==> nodes[n].id == n)
      && (forall l :: l in links ==> links[l].id == l && links[l].from in nodes && links[l].to in nodes)
    }

    /** Adds a node under a fresh id; the program only ever adds ids the network lacks. */
    method AddNode(node: Node)
      requires Valid()
      requires node.id !in nodes
      modifies this
      ensures Valid()
      ensures nodes == old(nodes)[node.id := node]
      ensures links == old(links)
    {
      nodes := nodes[node.id := node];
    }

    /** Adds a link under a fresh id; both of its endpoints must already be nodes of the network. */
    method AddLink(link: Link)
      requires Valid()
      requires link.id !in links
      requires link.from in nodes && link.to in nodes
      modifies this
      ensures Valid()
      ensures links == old(links)[link.id := link]
      ensures nodes == old(nodes)
    {
      links := links[link.id := link];
    }

    /** Looks a node up by id; absent ids give None. */
    method GetNode(id: NodeId) returns (node: Option<Node>)
      requires Valid()
      ensures id in nodes <==> node.Some?
      ensures node.Some? ==> node.value == nodes[id] && node.value.id == id
    {
      node := if id in nodes then Some(nodes[id]) else None;
    }
  }
}
