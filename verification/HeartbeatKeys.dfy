/**
 The keys under which heartbeat timers are stored: "<topic>-<gateway ip>"
 (platform/sensor-stream-manager/sensor-stream-manager.js:76-91, 194-198, 222).
 */
module HeartbeatKeys {

  function Key(topic: string, ip: string): string {
    topic + "-" + ip
  }

  /** The part before the first '-': `key.split("-")[0]`. */
  function FirstPart(key: string): string {
    if key == "" || key[0] == '-' then "" else [key[0]] + FirstPart(key[1..])
  }

  /** What follows the first '-', or "" when there is none. */
  function AfterFirst(key: string): string {
    if key == "" then "" else if key[0] == '-' then key[1..] else AfterFirst(key[1..])
  }

  /** `key.split("-")[1]`, for a key that contains a '-'. */
  function SecondPart(key: string): string {
    FirstPart(AfterFirst(key))
  }

  lemma {:induction false} FirstPartIsPrefix(key: string)
    ensures FirstPart(key) <= key && '-' !in FirstPart(key)
    ensures '-' !in key ==> FirstPart(key) == key
  {
    if key != "" && key[0] != '-' {
      FirstPartIsPrefix(key[1..]);
      assert key == [key[0]] + key[1..];
    }
  }

  lemma {:induction false} SplitKey(topic: string, ip: string)
    requires '-' !in topic
    ensures FirstPart(Key(topic, ip)) == topic && AfterFirst(Key(topic, ip)) == ip
  {
    var key := Key(topic, ip);
    if topic == "" {
      assert key == "-" + ip;
    } else {
      SplitKey(topic[1..], ip);
      assert key[1..] == Key(topic[1..], ip);
      assert topic == [topic[0]] + topic[1..];
    }
  }

  /** The failure handler gets back the topic and the gateway it was armed for iff neither contains a '-'. */
  lemma SplitsBackExactlyWhenDashFree(topic: string, ip: string)
    ensures FirstPart(Key(topic, ip)) == topic && SecondPart(Key(topic, ip)) == ip
        <==> '-' !in topic && '-' !in ip
  {
    FirstPartIsPrefix(Key(topic, ip));
    if '-' !in topic {
      SplitKey(topic, ip);
      FirstPartIsPrefix(ip);
    }
  }

  /** For one topic the key determines the gateway. */
  lemma KeyDeterminesGateway(topic: string, ip: string, other: string)
    ensures Key(topic, ip) == Key(topic, other) <==> ip == other
  {
    assert ip == Key(topic, ip)[|topic| + 1..] && other == Key(topic, other)[|topic| + 1..];
  }

  /** Timers of different (topic, gateway) pairs have different keys, when topics contain no '-'. */
  lemma KeysAreDistinct(topic: string, ip: string, topic': string, ip': string)
    requires '-' !in topic && '-' !in topic'
    ensures Key(topic, ip) == Key(topic', ip') <==> topic == topic' && ip == ip'
  {
    SplitKey(topic, ip);
    SplitKey(topic', ip');
  }

  /** Some other pair uses the same timer key. */
  ghost predicate IsShared(topic: string, ip: string) {
    exists topic', ip' :: (topic' != topic || ip' != ip) && Key(topic', ip') == Key(topic, ip)
  }

  lemma {:induction false} DashAt(s: string) returns (before: string, after: string)
    requires '-' in s
    ensures s == Key(before, after)
  {
    if s[0] == '-' {
      before, after := "", s[1..];
    } else {
      before, after := DashAt(s[1..]);
      before := [s[0]] + before;
    }
  }

  /** A pair has its timer to itself iff neither its topic nor its gateway contains a '-'. */
  lemma KeyIsSharedExactlyWhenDashed(topic: string, ip: string)
    ensures IsShared(topic, ip) <==> '-' in topic || '-' in ip
  {
    if '-' in topic {
      var before, after := DashAt(topic);
      assert Key(before, Key(after, ip)) == Key(topic, ip) && |before| < |topic|;
    } else if '-' in ip {
      var before, after := DashAt(ip);
      assert Key(Key(topic, before), after) == Key(topic, ip) && |after| < |ip|;
    } else {
      forall topic', ip' | Key(topic', ip') == Key(topic, ip)
        ensures topic' == topic && ip' == ip
      {
        OnlyDash(topic, ip, topic', ip');
      }
    }
  }

  lemma OnlyDash(topic: string, ip: string, topic': string, ip': string)
    requires '-' !in topic && '-' !in ip && Key(topic', ip') == Key(topic, ip)
    ensures topic' == topic && ip' == ip
  {
    var key := Key(topic, ip);
    assert forall k :: 0 <= k < |key| && k != |topic| ==> key[k] in topic || key[k] in ip;
    assert key[|topic'|] == '-';
    assert topic' == key[..|topic'|] && ip' == key[|topic'| + 1..];
  }
}
