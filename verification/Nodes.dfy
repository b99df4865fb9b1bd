/** Scanned entities whose edges the loaders assign in place. */
module Nodes {
  import opened Rows
  import opened Eager

  datatype LoadError = InvalidField(name: string) | UnexpectedNode(edge: string, id: int)

  /** One scanned account; the loaders assign its edges in place. */
  class AccountNode {
    const row: Row
    const loaded: seq<bool>
    var groups: seq<Row>
    var proxy: Option<Row>
    var usageLogs: seq<Row>
    var accountGroups: seq<AccountGroupTree>

    constructor (row: Row, loaded: seq<bool>)
      ensures this.row == row && this.loaded == loaded
      ensures groups == [] && proxy == None && usageLogs == [] && accountGroups == []
    {
      this.row, this.loaded := row, loaded;
      groups, proxy, usageLogs, accountGroups := [], None, [], [];
    }

    function Tree(): AccountTree
      reads this
    {
      AccountTree(row, loaded, groups, proxy, usageLogs, accountGroups)
    }
  }

  class AccountGroupNode {
    const row: Row
    const loaded: seq<bool>
    var account: Option<AccountTree>
    var group: Option<Row>

    constructor (row: Row, loaded: seq<bool>)
      ensures this.row == row && this.loaded == loaded && account == None && group == None
    {
      this.row, this.loaded := row, loaded;
      account, group := None, None;
    }

    function Tree(): AccountGroupTree
      reads this
    {
      AccountGroupTree(row, loaded, account, group)
    }
  }

  /** The scanned rows behind the nodes. */
  function NodeRows(nodes: seq<AccountNode>): seq<Row> {
    seq(|nodes|, i requires 0 <= i < |nodes| => nodes[i].row)
  }

  function LinkNodeRows(nodes: seq<AccountGroupNode>): seq<Row> {
    seq(|nodes|, i requires 0 <= i < |nodes| => nodes[i].row)
  }

  predicate Distinct<T(==)>(nodes: seq<T>) {
    forall i, j :: 0 <= i < j < |nodes| ==> nodes[i] != nodes[j]
  }
}
