/** The encoding director's fan-out: one encoding request per configured profile, in the
    order the profiles are configured, all to the one exchange under one routing key. */
module RequestEncodings {
  import opened Messages
  import opened Amqp

  /** The publications the fan-out makes for one downloaded video. */
  function EncodingRequests(videoId: string, location: string, profiles: seq<EncodingProfile>): (ps: seq<Publication>)
    ensures |ps| == |profiles|
    ensures forall i :: 0 <= i < |ps| ==>
      ps[i] == Publication(ExchangeName, VideoEncodingRequested, EncodingRequested(videoId, location, profiles[i]))
    decreases |profiles|
  {
    if profiles == [] then []
    else
      var request := Publication(ExchangeName, VideoEncodingRequested, EncodingRequested(videoId, location, profiles[0]));
      [request] + EncodingRequests(videoId, location, profiles[1..])
  }

  /** Fanning out a concatenation of profile lists is the concatenation of the fan-outs. */
  lemma EncodingRequestsAppend(videoId: string, location: string, a: seq<EncodingProfile>, b: seq<EncodingProfile>)
    ensures EncodingRequests(videoId, location, a + b) == EncodingRequests(videoId, location, a) + EncodingRequests(videoId, location, b)
  {
    // both sides have the same length and agree at each index
  }

  /** The profile each request carries is the configured one: reading the profiles back
      from the requests gives the configuration. */
  lemma RequestedProfiles(videoId: string, location: string, profiles: seq<EncodingProfile>)
    ensures var ps := EncodingRequests(videoId, location, profiles);
      seq(|ps|, i requires 0 <= i < |ps| => ps[i].body.encodingProfile) == profiles
  {
  }

  class RequestVideoEncodingsAction {
    const channel: Channel
    /** `config.encoding.profiles`. */
    const profiles: seq<EncodingProfile>

    constructor (channel: Channel, profiles: seq<EncodingProfile>)
      ensures this.channel == channel && this.profiles == profiles
    {
      this.channel := channel;
      this.profiles := profiles;
    }

    method Execute(videoId: string, location: string)
      modifies channel
      ensures channel.published == old(channel.published) + EncodingRequests(videoId, location, profiles)
      ensures channel.settlements == old(channel.settlements) && channel.consumers == old(channel.consumers)
      ensures channel.prefetch == old(channel.prefetch) && channel.topology == old(channel.topology)
    {
      var i := 0;
      while i < |profiles|
        invariant 0 <= i <= |profiles|
        invariant channel.published == old(channel.published) + EncodingRequests(videoId, location, profiles[..i])
        invariant channel.settlements == old(channel.settlements) && channel.consumers == old(channel.consumers)
        invariant channel.prefetch == old(channel.prefetch) && channel.topology == old(channel.topology)
      {
        var profile := profiles[i];
        channel.Publish(ExchangeName, VideoEncodingRequested, EncodingRequested(videoId, location, profile));
        EncodingRequestsAppend(videoId, location, profiles[..i], [profile]);
        assert profiles[..i + 1] == profiles[..i] + [profile];
        i := i + 1;
      }
      assert profiles[..i] == profiles;
    }
  }
}
