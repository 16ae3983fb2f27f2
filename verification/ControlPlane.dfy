/** scada_select/src/ControlPlane: one consumed command becomes one mutation of
    the selection table, or a request to the metadata plane. */
module ControlPlane {
  import opened Wire
  import opened Selection
  import MetaDataPlane

  class ControlPlane {
    const table: SelectionTable
    const metadata: MetaDataPlane.MetaDataPlane

    constructor (table: SelectionTable, metadata: MetaDataPlane.MetaDataPlane)
      ensures this.table == table && this.metadata == metadata
    {
      this.table := table;
      this.metadata := metadata;
    }

    /** `outcome` resolves the catalogue write of a METADATA command. */
    method Handle(command: Command, outcome: Outcome)
      requires metadata.Counted()
      modifies table, metadata
      ensures table.View() == old(table.View()).Handle(command)
      ensures metadata.Counted()
      ensures metadata.View() == if command.Metadata? then old(metadata.View()).Request(command.uid, outcome)
                                 else old(metadata.View())
    {
      match command {
        case Add(uid) =>
          table.Add(uid);
        case Delete(uid) =>
          table.Erase(uid);
        case Metadata(uid) =>
          metadata.HandleMetadataRequest(uid, outcome);
        case Period(ms) =>
          table.SetPeriod(ms);
      }
    }
  }
}
