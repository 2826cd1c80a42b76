/** The rate limiter, the shared focus token, and the gateway that asks them in order. */
module Gateway {
  import opened Prelude
  import opened LimiterModel

  class RateLimiter {
    const windows: array<seq<nat>>

    ghost predicate Valid()
      reads this
    {
      windows.Length == 7
    }

    ghost function Value(): Buckets
      requires Valid()
      reads this, windows
    {
      windows[..]
    }

    constructor ()
      ensures Valid() && fresh(windows) && Value() == Fresh()
    {
      windows := new seq<nat>[7](i => []);
    }

    method EvictEverything(now: nat)
      requires Valid()
      modifies windows
      ensures Value() == EvictAll(old(Value()), now)
    {
      for i := 0 to 7
        invariant forall k :: 0 <= k < 7 ==>
                    windows[k] == if k < i then Evicted(old(windows[k]), Window(CATEGORIES[k]), now) else old(windows[k])
      {
        assert Index(CATEGORIES[i]) == i;
        Evict(CATEGORIES[i], now);
      }
    }

    method Evict(category: RateCategory, now: nat)
      requires Valid()
      modifies windows
      ensures Value() == old(Value())[Index(category) := Evicted(old(windows[Index(category)]), Window(category), now)]
    {
      var k := Index(category);
      var window := Window(category);
      while windows[k] != [] && Since(now, windows[k][0]) >= window
        invariant forall j :: 0 <= j < 7 && j != k ==> windows[j] == old(windows[j])
        invariant Evicted(windows[k], window, now) == Evicted(old(windows[k]), window, now)
        decreases |windows[k]|
      {
        windows[k] := windows[k][1..];
      }
    }

    method AdmitCall(category: RateCategory, now: nat) returns (ok: bool)
      requires Valid()
      modifies windows
      ensures (Value(), ok) == Admit(old(Value()), category, now)
    {
      Evict(category, now);
      var k := Index(category);
      if |windows[k]| >= Limit(category) {
        return false;
      }
      ghost var bucket := windows[k];
      windows[k] := windows[k] + [now];
      assert Value() == old(Value())[k := bucket + [now]];
      return true;
    }
  }

  /** Who holds the transport; shared by every gateway and the host, 0 standing for nobody. A 16-bit word. */
  class FocusToken {
    var raw: nat

    ghost predicate Valid()
      reads this
    {
      raw < 0x1_0000
    }

    function Current(): (holder: Option<PluginId>)
      requires Valid()
      reads this
    {
      if raw == 0 then None else Some(raw - 1)
    }

    constructor ()
      ensures Valid() && Current() == None
    {
      raw := 0;
    }

    /**
     * The increment wraps, or panics in a build that checks overflow, on the last id: read back, exactly that holder is
     * nobody.
     */
    method SetHolder(holder: Option<PluginId>)
      modifies this
      ensures Valid()
      ensures Current() == holder <==> holder != Some(0xFFFF)
      ensures holder == Some(0xFFFF) ==> Current() == None
    {
      raw := if holder.Some? then (holder.value + 1) % 0x1_0000 else 0;
    }
  }

  class PluginGateway {
    const plugin: PluginId
    const grants: set<Permission>
    const focus: FocusToken
    const limiter: RateLimiter

    ghost predicate Valid()
      reads this, limiter, focus
    {
      limiter.Valid() && focus.Valid()
    }

    ghost function Identity(): Plugin { Plugin(plugin, grants) }

    constructor (plugin: PluginId, grants: set<Permission>, focus: FocusToken)
      requires focus.Valid()
      ensures Valid() && this.plugin == plugin && this.grants == grants && this.focus == focus
      ensures fresh(limiter) && fresh(limiter.windows) && limiter.Value() == Fresh()
    {
      this.plugin, this.grants, this.focus := plugin, grants, focus;
      limiter := new RateLimiter();
    }

    /** Permission, then focus, then the limiter; a refusal before the limiter leaves its buckets alone. */
    method AdmitRequest(kind: RequestKind, now: nat) returns (verdict: Verdict)
      requires Valid()
      modifies limiter.windows
      ensures (limiter.Value(), verdict) == Handle(Identity(), old(limiter.Value()), Request(kind, focus.Current(), now))
      ensures verdict == PermissionDenied <==> kind.requires_.Some? && kind.requires_.value !in grants
      ensures verdict == NoFocus <==>
                (kind.requires_.Some? ==> kind.requires_.value in grants)
                && kind.needsFocus && focus.Current() != Some(plugin)
      ensures verdict == Admitted || verdict == RateLimited ==>
                (verdict == Admitted <==> Admit(old(limiter.Value()), kind.category, now).1)
      ensures verdict == PermissionDenied || verdict == NoFocus ==> limiter.Value() == old(limiter.Value())
    {
      if kind.requires_.Some? && kind.requires_.value !in grants {
        return PermissionDenied;
      }
      if kind.needsFocus && focus.Current() != Some(plugin) {
        return NoFocus;
      }
      var ok := limiter.AdmitCall(kind.category, now);
      return if ok then Admitted else RateLimited;
    }
  }
}
