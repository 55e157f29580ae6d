/** The records the server stores: channels, messages and object metadata. */
module Records {
  import opened Types

  /** `Unknown` stands for every number outside the enumeration. */
  datatype Visibility = Public | Protected | Private | Unknown(number: int)

  datatype Channel = Channel(
    id: nat,
    name: string,
    protocol: string,
    description: string,
    visibility: Visibility,
    creator: Option<U64>,
    members: seq<U64>)

  datatype ObjectKey = ObjectKey(objectId: nat, objectToken: string)

  datatype Message = Message(
    sequence: nat,
    channelId: nat,
    principal: U64,
    recipients: seq<U64>,
    payload: string,
    timestamp: nat,
    uuid: nat,
    objectKeys: seq<ObjectKey>)

  datatype StoredObject = StoredObject(
    id: nat,
    token: string,
    creator: U64,
    name: string,
    kind: string,
    description: string,
    size: nat)

  const MAX_CHANNEL_MEMBERS := 1024
  const MAX_OBJECT_KEYS := 1024
  const MAX_OBJECT_BYTES := 4 * 1024 * 1024

  const SYSTEM_CHANNEL: Channel := Channel(0, "system", "system.v1", "", Protected, None, [])

  predicate CanRead(channel: Channel, principal: U64) {
    channel.id == 0 || channel.visibility.Public? || channel.visibility.Protected? || principal in channel.members
  }

  predicate CanWrite(channel: Channel, principal: U64) {
    channel.id != 0 && (channel.visibility.Public? || principal in channel.members)
  }
}
