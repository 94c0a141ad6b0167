/**
 AAServer's `ChannelHandler`, the base class of its handlers: the flag for the channel open response.
 */
module ChannelHandlers {
  import opened Utils
  import opened Messages

  class ChannelHandler {
    var gotChannelOpenResponse: bool

    /** The flag is left as it is in memory. */
    constructor ()
    {
    }

    method HandleMessageFromHeadunit(data: Bytes) returns (handled: bool)
      requires |data| >= 2
      modifies this`gotChannelOpenResponse
      ensures handled <==> TypeOf(data) == CHANNEL_OPEN_RESPONSE
      ensures gotChannelOpenResponse == (old(gotChannelOpenResponse) || handled)
    {
      handled := false;
      if ToInt16(data) == CHANNEL_OPEN_RESPONSE {
        gotChannelOpenResponse := true;
        handled := true;
      }
    }
  }
}
