// The node record of moudles/test/rbtree.c and the values that describe a graph of such nodes.
module RbNode {
  datatype Color = Red | Black

  // The key is written once, by createNode, and by nothing afterwards; every other field is overwritten in place.
  class Node {
    const key: int
    var color: Color
    var left: Node?
    var right: Node?
    var parent: Node?

    constructor (key: int)
      ensures this.key == key && color == Red
      ensures left == null && right == null && parent == null
    {
      this.key := key;
      color := Red;
      left, right, parent := null, null, null;
    }
  }

  // The mutable fields of one node at one moment.
  datatype Cell = Cell(color: Color, left: Node?, right: Node?, parent: Node?)

  // The mutable fields of a set of nodes at one moment.
  type Store = map<Node, Cell>

  datatype Side = L | R

  function Other(side: Side): Side {
    if side == L then R else L
  }
}
