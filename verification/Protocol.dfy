/** Names and limits shared by the parts of the bridge. */
module Protocol {

  datatype Option<+T> = None | Some(value: T)

  /** The replayable event types. */
  datatype Kind =
    | Message | Edit | Delete | Reaction | Receipt
    | MembershipChange | MembershipSnapshot | GroupSubject | GroupDescription

  const MAX_BRIDGE_FRAME_BYTES := 262144
  const PROTOCOL_VERSION := 6
  const MAX_SAFE_INTEGER := 9007199254740991
}
