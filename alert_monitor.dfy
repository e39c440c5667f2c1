/** The system monitor: CPU and memory readings are compared with
    thresholds, and an alert for a metric is sent at most once per cooldown
    hour. The readings and the time are inputs; sending is represented by
    the list of alerts a check produces and the admins it goes to. */
module AlertMonitoring {
  import opened Common

  const Cooldown: real := 3600.0

  const DefaultThresholds: map<string, int> := map[
    "high_cpu" := 80,
    "high_memory" := 500,
    "slow_response" := 5
  ]

  /** A metric that went over its threshold, with its reading. */
  datatype Alert = HighCpu(percent: real) | HighMemory(megabytes: real)

  /** `last_alert[key]` of a defaultdict(float): 0 when absent. */
  function LastAt(last: map<string, real>, key: string): real {
    if key in last then last[key] else 0.0
  }

  /** One metric's gate: when the reading is over its threshold the key is
      looked up (which creates it, at 0, when absent), and the alert fires
      iff more than an hour has passed since that metric's last alert; firing
      records `now`. */
  function Gate(last: map<string, real>, key: string, over: bool, now: real): (r: (map<string, real>, bool))
    ensures r.1 <==> over && now - LastAt(last, key) > Cooldown
    ensures r.1 ==> r.0 == last[key := now]
    ensures over && !r.1 ==> r.0 == last[key := LastAt(last, key)]
    ensures !over ==> r.0 == last
  {
    if !over then (last, false)
    else
      var seen := last[key := LastAt(last, key)];
      if now - seen[key] > Cooldown then (seen[key := now], true) else (seen, false)
  }

  /** `check_and_alert` with the CPU percentage and resident memory (MB) as
      inputs: the CPU gate first, then the memory gate, each against its own
      threshold and its own last-alert time. */
  function CheckSpec(last: map<string, real>, thresholds: map<string, int>,
                     cpuPercent: real, memoryMb: real, now: real): (r: (map<string, real>, seq<Alert>))
    requires "high_cpu" in thresholds && "high_memory" in thresholds
    ensures HighCpu(cpuPercent) in r.1 <==>
              cpuPercent > thresholds["high_cpu"] as real && now - LastAt(last, "cpu") > Cooldown
    ensures HighMemory(memoryMb) in r.1 <==>
              memoryMb > thresholds["high_memory"] as real && now - LastAt(last, "memory") > Cooldown
    ensures |r.1| <= 2
    ensures forall a :: a in r.1 ==> a == HighCpu(cpuPercent) || a == HighMemory(memoryMb)
    ensures forall k :: k != "cpu" && k != "memory" ==> (k in r.0 <==> k in last)
    ensures forall k :: k in last && k != "cpu" && k != "memory" ==> r.0[k] == last[k]
  {
    var cpu := Gate(last, "cpu", cpuPercent > thresholds["high_cpu"] as real, now);
    var memory := Gate(cpu.0, "memory", memoryMb > thresholds["high_memory"] as real, now);
    (memory.0, (if cpu.1 then [HighCpu(cpuPercent)] else []) +
               (if memory.1 then [HighMemory(memoryMb)] else []))
  }

  /** A metric alerts at most once an hour: right after it fired, the same
      gate stays shut until more than an hour has passed. */
  lemma AtMostOncePerCooldown(last: map<string, real>, key: string, now: real, later: real, over: bool)
    requires Gate(last, key, true, now).1
    requires later - now <= Cooldown
    ensures !Gate(Gate(last, key, true, now).0, key, over, later).1
  {
  }

  /** The two metrics have separate cooldowns: a CPU alert does not delay a
      memory alert. */
  lemma CooldownsAreSeparate(last: map<string, real>, now: real, later: real, over: bool)
    ensures Gate(Gate(last, "cpu", true, now).0, "memory", over, later).1 ==
            Gate(last, "memory", over, later).1
  {
  }

  /** The admins an alert goes to: every configured id except 0, in order. */
  function Recipients(adminIds: seq<int>): (r: seq<int>)
    ensures forall x :: x in r <==> x in adminIds && x != 0
    ensures |r| <= |adminIds|
  {
    if adminIds == [] then []
    else
      assert adminIds == [adminIds[0]] + adminIds[1..];
      (if adminIds[0] != 0 then [adminIds[0]] else []) + Recipients(adminIds[1..])
  }

  /** Each non-zero id is kept as often as it is configured, and no other id
      is kept. */
  lemma {:induction false} RecipientsCounts(adminIds: seq<int>)
    ensures forall x :: multiset(Recipients(adminIds))[x] == if x != 0 then multiset(adminIds)[x] else 0
  {
    if adminIds != [] {
      RecipientsCounts(adminIds[1..]);
      assert adminIds == [adminIds[0]] + adminIds[1..];
    }
  }

  /** The recipients of a concatenation are those of each part, in order. */
  lemma {:induction false} RecipientsAppend(a: seq<int>, b: seq<int>)
    ensures Recipients(a + b) == Recipients(a) + Recipients(b)
  {
    if a != [] {
      assert (a + b)[0] == a[0];
      assert (a + b)[1..] == a[1..] + b;
      RecipientsAppend(a[1..], b);
      var head := if a[0] != 0 then [a[0]] else [];
      assert head + (Recipients(a[1..]) + Recipients(b)) == (head + Recipients(a[1..])) + Recipients(b);
    } else {
      assert a + b == b;
    }
  }

  class AlertMonitor {
    /** metric key ("cpu", "memory") -> time of its last alert */
    var lastAlert: map<string, real>
    /** threshold name -> value */
    var thresholds: map<string, int>

    /** The two thresholds the check reads are present. */
    predicate Valid()
      reads this
    {
      "high_cpu" in thresholds && "high_memory" in thresholds
    }

    constructor()
      ensures Valid()
      ensures lastAlert == map[] && thresholds == DefaultThresholds
    {
      lastAlert := map[];
      thresholds := DefaultThresholds;
    }

    method CheckAndAlert(cpuPercent: real, memoryMb: real, now: real) returns (sent: seq<Alert>)
      requires Valid()
      modifies this
      ensures Valid() && thresholds == old(thresholds)
      ensures (lastAlert, sent) == CheckSpec(old(lastAlert), thresholds, cpuPercent, memoryMb, now)
    {
      ghost var cpu := Gate(lastAlert, "cpu", cpuPercent > thresholds["high_cpu"] as real, now);
      sent := [];
      if cpuPercent > thresholds["high_cpu"] as real {
        lastAlert := lastAlert["cpu" := LastAt(lastAlert, "cpu")];
        if now - lastAlert["cpu"] > Cooldown {
          sent := sent + [HighCpu(cpuPercent)];
          lastAlert := lastAlert["cpu" := now];
        }
      }
      assert lastAlert == cpu.0 && sent == if cpu.1 then [HighCpu(cpuPercent)] else [];
      ghost var memory := Gate(lastAlert, "memory", memoryMb > thresholds["high_memory"] as real, now);
      if memoryMb > thresholds["high_memory"] as real {
        lastAlert := lastAlert["memory" := LastAt(lastAlert, "memory")];
        if now - lastAlert["memory"] > Cooldown {
          sent := sent + [HighMemory(memoryMb)];
          lastAlert := lastAlert["memory" := now];
        }
      }
      assert lastAlert == memory.0;
      assert sent == (if cpu.1 then [HighCpu(cpuPercent)] else []) +
                     (if memory.1 then [HighMemory(memoryMb)] else []);
    }

    /** `update_threshold`: only an existing threshold can be changed, and
        only that one changes. */
    method UpdateThreshold(metric: string, value: int) returns (updated: bool)
      requires Valid()
      modifies this
      ensures Valid()
      ensures updated <==> metric in old(thresholds)
      ensures updated ==> thresholds == old(thresholds)[metric := value]
      ensures !updated ==> thresholds == old(thresholds)
      ensures lastAlert == old(lastAlert)
    {
      if metric in thresholds {
        thresholds := thresholds[metric := value];
        return true;
      }
      return false;
    }

    /** `reset_cooldown`: with a (non-empty) metric, that key is set to 0 if it
        is present, and the answer says whether it was; with no metric every
        cooldown is dropped. */
    method ResetCooldown(metric: Option<string>) returns (reset: bool)
      modifies this
      ensures StrTruthy(metric) ==> (reset <==> metric.value in old(lastAlert))
      ensures StrTruthy(metric) && reset ==> lastAlert == old(lastAlert)[metric.value := 0.0]
      ensures StrTruthy(metric) && !reset ==> lastAlert == old(lastAlert)
      ensures !StrTruthy(metric) ==> reset && lastAlert == map[]
      ensures thresholds == old(thresholds)
    {
      if StrTruthy(metric) {
        if metric.value in lastAlert {
          lastAlert := lastAlert[metric.value := 0.0];
          return true;
        }
        return false;
      }
      lastAlert := map[];
      return true;
    }
  }

  /** After a reset, a metric over its threshold alerts at once (any time
      more than an hour after the epoch). */
  lemma ResetAlertsAtOnce(last: map<string, real>, key: string, now: real, everything: bool)
    requires now > Cooldown
    ensures Gate(if everything then map[] else last[key := 0.0], key, true, now).1
  {
  }
}
