/** The topic filter: which bus messages carry a sensor report. */
module Topic {

  predicate SlashFree(s: string)
  {
    '/' !in s
  }

  /** Number of '/' characters in `s`. */
  function Slashes(s: string): nat
  {
    if s == [] then 0 else (if s[0] == '/' then 1 else 0) + Slashes(s[1..])
  }

  /** The inverse of splitting: the segments glued back with '/'. */
  function Join(segments: seq<string>): string
    requires |segments| >= 1
  {
    if |segments| == 1 then segments[0] else segments[0] + "/" + Join(segments[1..])
  }

  /** `strings.Split(s, "/")`: the pieces of `s` between its separators, in
      order, so that an empty string and adjacent or trailing separators give
      empty segments. */
  function Split(s: string): (segments: seq<string>)
    ensures |segments| == Slashes(s) + 1
    ensures forall i :: 0 <= i < |segments| ==> SlashFree(segments[i])
    ensures Join(segments) == s
  {
    if s == [] then [""]
    else
      var rest := Split(s[1..]);
      if s[0] == '/' then
        assert s == "/" + s[1..];
        [""] + rest
      else
        var segments := [[s[0]] + rest[0]] + rest[1..];
        assert |rest| > 1 ==> Join(rest) == rest[0] + "/" + Join(rest[1..]);
        assert segments[1..] == rest[1..];
        assert s == [s[0]] + s[1..];
        segments
  }

  /** `isTasmotaSensorMessage`: the topic has exactly three segments and the
      third is "SENSOR". */
  predicate IsSensorMessage(topic: string)
  {
    var segments := Split(topic);
    |segments| == 3 && segments[2] == "SENSOR"
  }

  /** Splitting undoes joining whenever no segment holds a separator. */
  lemma {:induction false} SplitJoin(segments: seq<string>)
    requires |segments| >= 1
    requires forall i :: 0 <= i < |segments| ==> SlashFree(segments[i])
    ensures Split(Join(segments)) == segments
  {
    if |segments| == 1 {
      SplitSlashFree(segments[0]);
    } else {
      SplitJoin(segments[1..]);
      SplitAfterSegment(segments[0], Join(segments[1..]));
    }
  }

  /** A string without separators is its own single segment. */
  lemma SplitSlashFree(s: string)
    requires SlashFree(s)
    ensures Split(s) == [s]
  {
    // Split's own contract: one segment, and it joins back to s
  }

  /** A leading separator-free segment followed by '/' splits off first. */
  lemma {:induction false} SplitAfterSegment(a: string, rest: string)
    requires SlashFree(a)
    ensures Split(a + "/" + rest) == [a] + Split(rest)
  {
    if a == [] {
      assert a + "/" + rest == "/" + rest;
      assert ("/" + rest)[1..] == rest;
    } else {
      var s := a + "/" + rest;
      assert s[0] == a[0];
      assert s[1..] == a[1..] + "/" + rest;
      SplitAfterSegment(a[1..], rest);
      assert [a[0]] + a[1..] == a;
    }
  }

  /** The filter accepts exactly the topics `a/b/SENSOR` whose first two
      segments hold no separator (either may be empty). */
  lemma SensorMessageShape(topic: string)
    ensures IsSensorMessage(topic) <==>
      exists a, b :: SlashFree(a) && SlashFree(b) && topic == a + "/" + b + "/SENSOR"
  {
    if IsSensorMessage(topic) {
      var segments := Split(topic);
      assert Join(segments[2..]) == "SENSOR";
      assert Join(segments[1..]) == segments[1] + "/" + "SENSOR";
      assert topic == segments[0] + "/" + segments[1] + "/SENSOR";
      assert SlashFree(segments[0]) && SlashFree(segments[1]);
    }
    if exists a, b :: SlashFree(a) && SlashFree(b) && topic == a + "/" + b + "/SENSOR" {
      var a, b :| SlashFree(a) && SlashFree(b) && topic == a + "/" + b + "/SENSOR";
      var segments := [a, b, "SENSOR"];
      assert SlashFree("SENSOR");
      JoinThree(a, b, "SENSOR");
      assert topic == Join(segments);
      SplitJoin(segments);
    }
  }

  /** Joining three segments puts a separator between neighbours. */
  lemma JoinThree(a: string, b: string, c: string)
    ensures Join([a, b, c]) == a + "/" + b + "/" + c
  {
    assert [a, b, c][1..] == [b, c];
    assert [b, c][1..] == [c];
    assert Join([b, c]) == b + "/" + c;
    assert Join([a, b, c]) == a + "/" + (b + "/" + c);
  }

  /** The telemetry topic of any device name without '/' passes the filter. */
  lemma AcceptsTelemetryTopic(device: string)
    requires SlashFree(device)
    ensures IsSensorMessage(device + "/tele/SENSOR")
  {
    var segments := [device, "tele", "SENSOR"];
    assert SlashFree("tele") && SlashFree("SENSOR");
    JoinThree(device, "tele", "SENSOR");
    assert Join(segments) == device + "/tele/SENSOR";
    SplitJoin(segments);
  }

  /** A third segment other than "SENSOR" is dropped. */
  lemma RejectsResultTopic()
    ensures !IsSensorMessage("dev1/stat/RESULT")
  {
  }

  /** A fourth segment is dropped even when the third is "SENSOR". */
  lemma RejectsLongerTopic()
    ensures !IsSensorMessage("a/b/SENSOR/x")
  {
  }
}
