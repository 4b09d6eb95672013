/**
  The subscription document: which subscribers listen to one message type.
  Its id is derived from the message type's name and major version only.
 */
module SubscriptionPersister {
  import opened Wrappers
  import opened Guids

  /** An assembly version: major.minor.build.revision. */
  datatype Version = Version(Major: int, Minor: int, Build: int, Revision: int)

  /** A message type as subscriptions see it: its type name and its assembly version. */
  datatype MessageType = MessageType(TypeName: string, Version: Version)

  /** A subscribing endpoint and the address its messages go to. */
  datatype Subscriber = Subscriber(TransportAddress: string, Endpoint: string)

  /**
    DeterministicGuid.Create: a name-based GUID computed from its arguments,
    here the type name, a separator and the major version.
   */
  type GuidFactory = (string, string, int) -> Guid

  const IdPrefix := "Subscriptions/"

  /**
    The message type of `System.Object`, which the parameterless constructor
    uses; its version is that of the runtime's core library.
   */
  const ObjectMessageType := MessageType("System.Object", Version(4, 0, 0, 0))

  /** The GUID a subscription id is built from. */
  function IdGuid(messageType: MessageType, create: GuidFactory): Guid
  {
    create(messageType.TypeName, "/", messageType.Version.Major)
  }

  /**
    The subscription id of a message type: "Subscriptions/" followed by the
    text of its deterministic GUID. The id always starts with the prefix, has
    a fixed length, and its tail reads back as that GUID.
   */
  function FormatId(messageType: MessageType, create: GuidFactory): (id: string)
    ensures |id| == |IdPrefix| + 36
    ensures id[..|IdPrefix|] == IdPrefix
    ensures Parse(id[|IdPrefix|..]) == Some(IdGuid(messageType, create))
  {
    var g := IdGuid(messageType, create);
    ParseFormat(g);
    assert (IdPrefix + Format(g))[|IdPrefix|..] == Format(g);
    IdPrefix + Format(g)
  }

  /** Message types with the same type name and major version get the same id. */
  lemma FormatIdDeterministic(a: MessageType, b: MessageType, create: GuidFactory)
    requires a.TypeName == b.TypeName && a.Version.Major == b.Version.Major
    ensures FormatId(a, create) == FormatId(b, create)
  {
  }

  /** Minor, build and revision numbers never change the id. */
  lemma FormatIdIgnoresMinorVersions(typeName: string, major: int, v1: Version, v2: Version, create: GuidFactory)
    requires v1.Major == major && v2.Major == major
    ensures FormatId(MessageType(typeName, v1), create) == FormatId(MessageType(typeName, v2), create)
  {
  }

  /** Two message types share an id exactly when their deterministic GUIDs agree. */
  lemma FormatIdSameExactlyWhenGuidSame(a: MessageType, b: MessageType, create: GuidFactory)
    ensures FormatId(a, create) == FormatId(b, create) <==> IdGuid(a, create) == IdGuid(b, create)
  {
  }

  /**
    When the GUID derivation gives these two message types no collision, their
    ids coincide exactly when the type names and the major versions do.
   */
  lemma FormatIdSeparatesMessageTypes(a: MessageType, b: MessageType, create: GuidFactory)
    requires IdGuid(a, create) == IdGuid(b, create) ==> a.TypeName == b.TypeName && a.Version.Major == b.Version.Major
    ensures FormatId(a, create) == FormatId(b, create) <==> a.TypeName == b.TypeName && a.Version.Major == b.Version.Major
  {
  }

  /**
    A subscription document. In the C# class the id, the message type and the
    subscriber list must never be null; these types have no null, so that
    object invariant holds of every Subscription.
   */
  class Subscription {
    var Id: string
    var DocumentVersion: int
    var MessageType: MessageType
    var Subscribers: seq<Subscriber>

    /** The empty subscription the document mapper starts from. */
    constructor ()
      ensures Id == "" && DocumentVersion == 0
      ensures MessageType == ObjectMessageType && Subscribers == []
    {
      Id := "";
      DocumentVersion := 0;
      MessageType := ObjectMessageType;
      Subscribers := [];
    }

    /** The subscription of one message type, with no subscribers yet. */
    constructor ForMessageType(messageType: MessageType, create: GuidFactory)
      ensures Id == FormatId(messageType, create) && DocumentVersion == 0
      ensures MessageType == messageType && Subscribers == []
    {
      Id := FormatId(messageType, create);
      DocumentVersion := 0;
      MessageType := messageType;
      Subscribers := [];
    }
  }
}
