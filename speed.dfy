// The initial speed of a particle (metaheuristic/position.hpp, struct
// Speed): one vector of random reals per decision kind.
module Speeds {

  /** A particle's speed, one component per decision (floats as reals). */
  datatype Speed = Speed(procSched: seq<real>, sendSched: seq<real>, recSched: seq<real>,
                         procMappings: seq<real>, procModes: seq<real>, tdmaAlloc: seq<real>,
                         appGroup: seq<real>, procGroup: seq<real>)

  /** Every entry of `v` lies in `[lo, hi)`. */
  predicate InRange(v: seq<real>, lo: real, hi: real)
  {
    forall i :: 0 <= i < |v| ==> Between(v[i], lo, hi)
  }

  predicate Between(x: real, lo: real, hi: real)
  {
    lo <= x < hi
  }

  /**
   * `random_v(s, min, max)`: `s` values drawn from the uniform real
   * distribution on `[min, max)`; any such values may come.
   */
  method RandomV(s: nat, lo: real, hi: real) returns (v: seq<real>)
    requires lo < hi
    ensures |v| == s && InRange(v, lo, hi)
  {
    v := [];
    while |v| < s
      invariant |v| <= s && InRange(v, lo, hi)
    {
      assert Between(lo, lo, hi);
      var x: real :| Between(x, lo, hi);
      v := v + [x];
    }
  }

  /**
   * The sizes and ranges the constructor gives: schedules and mappings
   * per actor or channel in `[-2, 2)`, modes per actor, TDMA slots and
   * processor groups per processor and application groups per entity in
   * `[-1, 1)`.
   */
  predicate Initial(sp: Speed, noActors: nat, noChannels: nat, noProcessors: nat, noEntities: nat)
  {
    |sp.procSched| == noActors && InRange(sp.procSched, -2.0, 2.0) &&
    |sp.sendSched| == noChannels && InRange(sp.sendSched, -2.0, 2.0) &&
    |sp.recSched| == noChannels && InRange(sp.recSched, -2.0, 2.0) &&
    |sp.procMappings| == noActors && InRange(sp.procMappings, -2.0, 2.0) &&
    |sp.procModes| == noActors && InRange(sp.procModes, -1.0, 1.0) &&
    |sp.tdmaAlloc| == noProcessors && InRange(sp.tdmaAlloc, -1.0, 1.0) &&
    |sp.appGroup| == noEntities && InRange(sp.appGroup, -1.0, 1.0) &&
    |sp.procGroup| == noProcessors && InRange(sp.procGroup, -1.0, 1.0)
  }

  /** The Speed constructor. `proc_modes` is sized by the actors, not the processors. */
  method NewSpeed(noActors: nat, noChannels: nat, noProcessors: nat, noEntities: nat) returns (sp: Speed)
    ensures Initial(sp, noActors, noChannels, noProcessors, noEntities)
  {
    var procSched := RandomV(noActors, -2.0, 2.0);
    var sendSched := RandomV(noChannels, -2.0, 2.0);
    var recSched := RandomV(noChannels, -2.0, 2.0);
    var procMappings := RandomV(noActors, -2.0, 2.0);
    var procModes := RandomV(noActors, -1.0, 1.0);
    var tdmaAlloc := RandomV(noProcessors, -1.0, 1.0);
    var appGroup := RandomV(noEntities, -1.0, 1.0);
    var procGroup := RandomV(noProcessors, -1.0, 1.0);
    sp := Speed(procSched, sendSched, recSched, procMappings, procModes, tdmaAlloc, appGroup, procGroup);
  }
}
