/** The registry of response channels: a map under a lock, one method per locked section. */
module ChannelRegistry {
  import opened Common

  class ChannelRegistry<C> {
    var channels: map<string, C>

    constructor ()
      ensures channels == map[]
    {
      channels := map[];
    }

    method Register(requestID: string, ch: C)
      modifies this
      ensures channels == old(channels)[requestID := ch]
    {
      channels := channels[requestID := ch];
    }

    /** None stands for the nil channel of an unknown request. */
    method Get(requestID: string) returns (ch: Option<C>)
      ensures ch == if requestID in channels then Some(channels[requestID]) else None
    {
      ch := if requestID in channels then Some(channels[requestID]) else None;
    }

    method Remove(requestID: string)
      modifies this
      ensures channels == old(channels) - {requestID}
    {
      channels := channels - {requestID};
    }

    method Clear()
      modifies this
      ensures channels == map[]
    {
      channels := map[];
    }
  }
}
