/** components/messaging/mqtt_service.c: the session flag and the guarded hand-over to the MQTT client. */
module MqttService {
  import opened Base

  /** One publication request. */
  datatype Item = Item(topic: string, data: seq<byte>, qos: int, retain: bool)

  /** A request the client has accepted; `queued` tells the worker's requests from those that bypass the queue. */
  datatype Wire = Wire(queued: bool, item: Item)

  datatype LinkState = LinkState(created: bool, connected: bool, wire: seq<Wire>)

  function PublishError(link: LinkState, clientOk: bool): Err {
    if !link.created || !link.connected then InvalidState else if clientOk then Ok else Fail
  }

  /** Accepted requests are appended to the wire; refused ones leave no trace. */
  function AfterPublish(link: LinkState, queued: bool, item: Item, clientOk: bool): LinkState {
    if PublishError(link, clientOk) == Ok then link.(wire := link.wire + [Wire(queued, item)]) else link
  }

  /** CONNECTED raises the flag and publishes the retained presence directly through the client. */
  function AfterConnect(link: LinkState, online: Item, clientOk: bool): LinkState {
    if !link.created then link
    else if clientOk then link.(connected := true, wire := link.wire + [Wire(false, online)])
    else link.(connected := true)
  }

  class Client {
    var created: bool
    var connected: bool
    var wire: seq<Wire>

    constructor ()
      ensures State() == LinkState(false, false, [])
    {
      created, connected, wire := false, false, [];
    }

    function State(): LinkState
      reads this
    {
      LinkState(created, connected, wire)
    }

    method Create()
      modifies this
      ensures State() == old(State()).(created := true)
    {
      created := true;
    }

    method OnConnected(online: Item, clientOk: bool)
      modifies this
      ensures State() == AfterConnect(old(State()), online, clientOk)
      ensures created == old(created) && connected == (created || old(connected))
      ensures wire == old(wire) + (if created && clientOk then [Wire(false, online)] else [])
    {
      if !created { return; }
      connected := true;
      if clientOk { wire := wire + [Wire(false, online)]; }
    }

    method OnDisconnected()
      modifies this
      ensures State() == old(State()).(connected := false)
    {
      connected := false;
    }

    method PublishImmediate(queued: bool, item: Item, clientOk: bool) returns (err: Err)
      modifies this
      ensures err == PublishError(old(State()), clientOk)
      ensures err == Ok <==> created && connected && clientOk
      ensures err == InvalidState <==> !created || !connected
      ensures err in {Ok, InvalidState, Fail}
      ensures created == old(created) && connected == old(connected)
      ensures wire == old(wire) + (if err == Ok then [Wire(queued, item)] else [])
      ensures State() == AfterPublish(old(State()), queued, item, clientOk)
    {
      if !created { return InvalidState; }
      if !connected { return InvalidState; }
      if !clientOk { return Fail; }
      wire := wire + [Wire(queued, item)];
      return Ok;
    }
  }
}
