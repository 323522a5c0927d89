/** Serial-port discovery: the operating-system specific filter over the
    device names the serial library lists, as used by `find_servo_port`
    (controller and reader), `find_port` (the two scripts) and
    `find_servo_ports` (the teleoperation example). The listing itself
    and `platform.system()` are inputs. */
module PortDiscovery {
  import opened Errors
  import opened Text

  /** Device names that look like a servo adapter on `system`: macOS
      USB-modem or USB-serial devices, Linux ttyUSB/ttyACM devices, and
      COM ports anywhere else. */
  predicate IsServoPort(system: string, device: string) {
    if system == "Darwin" then Contains(device, "usbmodem") || Contains(device, "usbserial")
    else if system == "Linux" then Contains(device, "ttyUSB") || Contains(device, "ttyACM")
    else Contains(device, "COM")
  }

  /** The list comprehension over the listed devices: those that pass the
      filter, in listing order. */
  function FilterPorts(system: string, devices: seq<string>): (ports: seq<string>)
    ensures |ports| <= |devices|
    ensures forall p :: p in ports ==> p in devices && IsServoPort(system, p)
    ensures forall d :: d in devices && IsServoPort(system, d) ==> d in ports
  {
    if |devices| == 0 then []
    else
      var rest := FilterPorts(system, devices[1..]);
      assert forall d :: d in devices[1..] ==> d in devices;
      if IsServoPort(system, devices[0]) then [devices[0]] + rest else rest
  }

  /** The filter keeps every qualifying device as often as it is listed,
      and no other device. */
  lemma {:induction false} FilterCounts(system: string, devices: seq<string>)
    ensures forall d :: multiset(FilterPorts(system, devices))[d]
                        == if IsServoPort(system, d) then multiset(devices)[d] else 0
  {
    if |devices| > 0 {
      FilterCounts(system, devices[1..]);
      assert devices == [devices[0]] + devices[1..];
    }
  }

  /** Filtering a concatenation filters each part. */
  lemma {:induction false} FilterAppend(system: string, a: seq<string>, b: seq<string>)
    ensures FilterPorts(system, a + b) == FilterPorts(system, a) + FilterPorts(system, b)
  {
    if |a| == 0 {
      assert a + b == b;
    } else {
      assert (a + b)[0] == a[0] && (a + b)[1..] == a[1..] + b;
      FilterAppend(system, a[1..], b);
    }
  }

  /** The positions of the devices that pass the filter, in increasing
      order. */
  function MatchIndices(system: string, devices: seq<string>): (idx: seq<nat>)
    ensures forall i :: 0 <= i < |idx| ==> idx[i] < |devices|
    ensures forall i, j :: 0 <= i < j < |idx| ==> idx[i] < idx[j]
    ensures forall j :: 0 <= j < |devices| ==> (j in idx <==> IsServoPort(system, devices[j]))
  {
    if |devices| == 0 then []
    else
      var n := |devices| - 1;
      var front := MatchIndices(system, devices[..n]);
      assert forall j :: 0 <= j < n ==> devices[..n][j] == devices[j];
      if IsServoPort(system, devices[n]) then front + [n] else front
  }

  /** `ports` lists the devices at the positions `idx`, in that order. */
  predicate Selects(ports: seq<string>, devices: seq<string>, idx: seq<nat>) {
    |ports| == |idx| && forall i :: 0 <= i < |idx| ==> idx[i] < |devices| && ports[i] == devices[idx[i]]
  }

  /** A selection from a prefix is a selection from the whole list, and
      stays one when the next device is added. */
  lemma SelectsExtend(ports: seq<string>, devices: seq<string>, idx: seq<nat>, n: nat)
    requires n < |devices| && Selects(ports, devices[..n], idx)
    ensures Selects(ports, devices, idx)
    ensures Selects(ports + [devices[n]], devices, idx + [n])
  {
    forall i | 0 <= i < |idx|
      ensures idx[i] < |devices| && ports[i] == devices[idx[i]]
    {
      assert devices[..n][idx[i]] == devices[idx[i]];
    }
  }

  /** The filtered list keeps the listing order: its i-th port is the
      device at the i-th matching position. */
  lemma {:induction false} FilterSelects(system: string, devices: seq<string>)
    ensures Selects(FilterPorts(system, devices), devices, MatchIndices(system, devices))
  {
    if |devices| > 0 {
      var n := |devices| - 1;
      var init := devices[..n];
      FilterSelects(system, init);
      assert devices == init + [devices[n]];
      FilterAppend(system, init, [devices[n]]);
      assert [devices[n]][1..] == [];
      SelectsExtend(FilterPorts(system, init), devices, MatchIndices(system, init), n);
    }
  }



  /** Index of the first listed device that passes the filter (|devices|
      when none does). */
  function FirstMatch(system: string, devices: seq<string>): (k: nat)
    ensures k <= |devices|
    ensures forall j :: 0 <= j < k ==> !IsServoPort(system, devices[j])
    ensures k < |devices| ==> IsServoPort(system, devices[k])
  {
    if |devices| == 0 || IsServoPort(system, devices[0]) then 0
    else 1 + FirstMatch(system, devices[1..])
  }

  /** The filtered list starts with the first matching device. */
  lemma {:induction false} FilterStartsWithFirstMatch(system: string, devices: seq<string>)
    ensures FilterPorts(system, devices) != [] <==> FirstMatch(system, devices) < |devices|
    ensures FilterPorts(system, devices) != [] ==>
              FilterPorts(system, devices)[0] == devices[FirstMatch(system, devices)]
  {
    if |devices| > 0 && !IsServoPort(system, devices[0]) {
      FilterStartsWithFirstMatch(system, devices[1..]);
    }
  }

  /** The filter from the first match on: that device, then the filter
      over the devices after it. */
  lemma {:induction false} FilterAfterFirstMatch(system: string, devices: seq<string>)
    requires FirstMatch(system, devices) < |devices|
    ensures var k := FirstMatch(system, devices);
            FilterPorts(system, devices) == [devices[k]] + FilterPorts(system, devices[k + 1..])
  {
    if !IsServoPort(system, devices[0]) {
      FilterAfterFirstMatch(system, devices[1..]);
      assert devices[1..][FirstMatch(system, devices[1..]) + 1..] == devices[FirstMatch(system, devices) + 1..];
    }
  }

  /** The second listed port is the first match among the devices after
      the first match. */
  lemma SecondPort(system: string, devices: seq<string>)
    requires |FilterPorts(system, devices)| >= 2
    ensures var k := FirstMatch(system, devices);
            k < |devices| && FirstMatch(system, devices[k + 1..]) < |devices[k + 1..]|
            && FilterPorts(system, devices)[1] == devices[k + 1..][FirstMatch(system, devices[k + 1..])]
  {
    FilterStartsWithFirstMatch(system, devices);
    var k := FirstMatch(system, devices);
    FilterAfterFirstMatch(system, devices);
    FilterStartsWithFirstMatch(system, devices[k + 1..]);
  }

  /** `find_servo_port`: the first listed device that passes the filter;
      PortNotFoundError when none does. */
  function FindServoPort(system: string, devices: seq<string>): (r: Result<string>)
    ensures r.Ok? <==> FirstMatch(system, devices) < |devices|
    ensures r.Ok? ==> r.value == devices[FirstMatch(system, devices)]
    ensures r.Err? ==> r.error == PortNotFoundError
  {
    FilterStartsWithFirstMatch(system, devices);
    var ports := FilterPorts(system, devices);
    if |ports| == 0 then Err(PortNotFoundError) else Ok(ports[0])
  }

  /** `find_port` in the two stand-alone scripts: the same search, with
      RuntimeError("No robot port found") when nothing matches. */
  function FindPort(system: string, devices: seq<string>): (r: Result<string>)
    ensures r.Ok? <==> FirstMatch(system, devices) < |devices|
    ensures r.Ok? ==> r.value == devices[FirstMatch(system, devices)]
    ensures r.Err? ==> r.error == RuntimeError
  {
    FilterStartsWithFirstMatch(system, devices);
    var ports := FilterPorts(system, devices);
    if |ports| == 0 then Err(RuntimeError) else Ok(ports[0])
  }

  /** `port if port else find_servo_port()` in both constructors (and
      the same test in the command-line front end): the given port unless
      it is missing or empty, otherwise auto-detection. */
  function ResolvePort(port: Option<string>, system: string, devices: seq<string>): (r: Result<string>)
    ensures port.Some? && port.value != "" ==> r == Ok(port.value)
    ensures port.None? || port.value == "" ==> r == FindServoPort(system, devices)
    ensures r.Ok? ==> r.value != ""
  {
    FoundPortNamed(system, devices);
    if port.Some? && port.value != "" then Ok(port.value) else FindServoPort(system, devices)
  }

  /** Resolving an already resolved port changes nothing. */
  lemma ResolvePortIdempotent(port: Option<string>, system: string, devices: seq<string>)
    requires ResolvePort(port, system, devices).Ok?
    ensures ResolvePort(Some(ResolvePort(port, system, devices).value), system, devices) == ResolvePort(port, system, devices)
  {
  }

  /** A detected port always has a name: the empty name passes no filter. */
  lemma FoundPortNamed(system: string, devices: seq<string>)
    ensures FindServoPort(system, devices).Ok? ==> FindServoPort(system, devices).value != ""
  {
    assert !IsServoPort(system, "");
  }

  /** The scripts' `find_port` and the SDK's `find_servo_port` pick the
      same port and fail on the same listings; only the exception differs. */
  lemma FindPortAgrees(system: string, devices: seq<string>)
    ensures FindPort(system, devices).Ok? <==> FindServoPort(system, devices).Ok?
    ensures FindPort(system, devices).Ok? ==> FindPort(system, devices) == FindServoPort(system, devices)
  {
  }

  // ---- the teleoperation example's `find_servo_ports`: sorted, never raising ----

  predicate Sorted(s: seq<string>) {
    forall i, j :: 0 <= i < j < |s| ==> LessEq(s[i], s[j])
  }

  /** Insert `x` before the first element it does not exceed. */
  function Insert(x: string, s: seq<string>): (r: seq<string>)
    requires Sorted(s)
    ensures Sorted(r)
    ensures multiset(r) == multiset(s) + multiset{x}
  {
    if |s| == 0 then [x]
    else if LessEq(x, s[0]) then
      forall j | 0 < j < |s| ensures LessEq(x, s[j]) {
        LessEqTransitive(x, s[0], s[j]);
      }
      [x] + s
    else
      LessEqTotal(x, s[0]);
      var rest := Insert(x, s[1..]);
      assert s == [s[0]] + s[1..];
      forall y | y in rest ensures LessEq(s[0], y) {
        assert y in multiset(rest);
        if y != x {
          assert y in multiset(s[1..]);
          var j :| 0 <= j < |s[1..]| && s[1..][j] == y;
          assert s[j + 1] == y;
        }
      }
      [s[0]] + rest
  }

  /** Python's `sorted` on a list of strings. */
  function SortStrings(s: seq<string>): (r: seq<string>)
    ensures Sorted(r)
    ensures multiset(r) == multiset(s)
  {
    if |s| == 0 then []
    else
      assert s == [s[0]] + s[1..];
      Insert(s[0], SortStrings(s[1..]))
  }

  /** `find_servo_ports`: the filtered device names in sorted order. */
  function FindServoPorts(system: string, devices: seq<string>): (ports: seq<string>)
    ensures Sorted(ports)
    ensures multiset(ports) == multiset(FilterPorts(system, devices))
  {
    SortStrings(FilterPorts(system, devices))
  }

  /** The tail of a sorted list is sorted. */
  lemma SortedTail(s: seq<string>)
    requires Sorted(s) && |s| > 0
    ensures Sorted(s[1..])
  {
  }

  /** Dropping the head removes one copy of it. */
  lemma MultisetTail(s: seq<string>)
    requires |s| > 0
    ensures multiset(s[1..]) == multiset(s) - multiset{s[0]}
  {
    assert s == [s[0]] + s[1..];
  }

  /** The head of a sorted list comes first among its elements. */
  lemma HeadLeast(s: seq<string>, x: string)
    requires Sorted(s) && x in s
    ensures LessEq(s[0], x)
  {
    var i :| 0 <= i < |s| && s[i] == x;
    if i == 0 {
      LessEqReflexive(x);
    }
  }

  /** Sorting leaves nothing to choose: two sorted lists with the same
      elements are the same list. */
  lemma {:induction false} SortedUnique(a: seq<string>, b: seq<string>)
    requires Sorted(a) && Sorted(b) && multiset(a) == multiset(b)
    ensures a == b
  {
    assert |a| == |multiset(a)| && |b| == |multiset(b)|;
    if |a| > 0 {
      SameHead(a, b);
      SortedUnique(a[1..], b[1..]);
      assert a == [a[0]] + a[1..] && b == [b[0]] + b[1..];
    }
  }

  /** Two non-empty sorted lists with the same elements start alike, and
      their tails are again sorted lists with the same elements. */
  lemma SameHead(a: seq<string>, b: seq<string>)
    requires Sorted(a) && Sorted(b) && multiset(a) == multiset(b) && |a| > 0
    ensures |b| > 0 && a[0] == b[0]
    ensures Sorted(a[1..]) && Sorted(b[1..]) && multiset(a[1..]) == multiset(b[1..])
  {
    assert |a| == |multiset(a)| && |b| == |multiset(b)|;
    assert a[0] in multiset(b) && b[0] in multiset(a);
    HeadLeast(b, a[0]);
    HeadLeast(a, b[0]);
    LessEqAntisymmetric(a[0], b[0]);
    MultisetTail(a);
    MultisetTail(b);
    SortedTail(a);
    SortedTail(b);
  }
}
