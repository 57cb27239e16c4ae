/** The synthetic chain tip: a cell shared by every clone, which only ever rises. */
module ChainTip {
  import opened Prelude
  import opened ActivationTarget

  /** The tip height a process starts with. */
  function StartHeight(target: Target, confirmed: bool): u32 {
    if confirmed then target.activationHeight else target.preActivationHeight
  }

  /** The watch channel: one height, seen by every clone of the tip. */
  class HeightCell {
    var height: u32

    constructor (height: u32)
      ensures this.height == height
    {
      this.height := height;
    }
  }

  class SeederChainTip {
    const activationHeight: u32
    const cell: HeightCell

    constructor (target: Target, confirmed: bool)
      ensures fresh(cell) && activationHeight == target.activationHeight
      ensures cell.height == StartHeight(target, confirmed)
    {
      activationHeight := target.activationHeight;
      cell := new HeightCell(StartHeight(target, confirmed));
    }

    /** A clone shares the cell of the tip it was taken from. */
    constructor Clone(original: SeederChainTip)
      ensures cell == original.cell && activationHeight == original.activationHeight
    {
      activationHeight := original.activationHeight;
      cell := original.cell;
    }

    /** The cell rises to the activation height or stays where it is. */
    method ConfirmActivation()
      modifies cell
      ensures cell.height == Max(old(cell.height), activationHeight)
    {
      if cell.height < activationHeight {
        cell.height := activationHeight;
      }
    }

    method IsActivationConfirmed() returns (confirmed: bool)
      ensures confirmed <==> cell.height >= activationHeight
    {
      confirmed := cell.height >= activationHeight;
    }

    method BestTipHeight() returns (height: u32)
      ensures height == cell.height
    {
      height := cell.height;
    }
  }

  /** Installing a build with a later activation never lowers the floor, though it ignores the old
      record: its starting floor is at least the floor the old build had confirmed, provided the new
      table extends the old one. */
  lemma UpgradeKeepsFloor(older: Network, newer: Network)
    requires Extends(newer, older)
    ensures newer.minRemote(StartHeight(Latest(newer), false))
            >= older.minRemote(StartHeight(Latest(older), true))
  {
    assert HaveSameFloor(newer, older, older.activationHeight);
    assert IsInOrder(newer, older.activationHeight, StartHeight(Latest(newer), false));
  }
}
