/**
 * Closing the loaded eBPF objects: `_TracerClose` closes its arguments one by
 * one and stops at the first error; `tracerObjects.Close` closes all programs,
 * then all maps. What each `Close()` returns is given by `outcome`.
 */
module TracerClose {
  import opened Wrappers

  /** `_TracerClose`: returns the first error, and the closers it called, in call order. */
  method TracerClose<C, E>(closers: seq<C>, outcome: C -> Option<E>) returns (err: Option<E>, called: seq<C>)
    ensures called <= closers
    ensures err.None? <==> called == closers && forall i :: 0 <= i < |closers| ==> outcome(closers[i]).None?
    ensures err.Some? ==> called != [] && err == outcome(called[|called| - 1])
    ensures forall i :: 0 <= i < |called| - 1 ==> outcome(called[i]).None?
  {
    called := [];
    var i := 0;
    while i < |closers|
      invariant 0 <= i <= |closers|
      invariant called == closers[..i]
      invariant forall j :: 0 <= j < i ==> outcome(closers[j]).None?
    {
      var closer := closers[i];
      called := called + [closer];
      var e := outcome(closer);
      if e.Some? {
        return e, called;
      }
      i := i + 1;
    }
    return None, called;
  }

  /** The programs, in the order `tracerPrograms.Close` passes them. */
  const ProgramCloseOrder: seq<string> := [
    "GoCryptoTlsAbi0Read", "GoCryptoTlsAbi0ReadEx", "GoCryptoTlsAbi0Write", "GoCryptoTlsAbi0WriteEx",
    "GoCryptoTlsAbiInternalRead", "GoCryptoTlsAbiInternalReadEx",
    "GoCryptoTlsAbiInternalWrite", "GoCryptoTlsAbiInternalWriteEx",
    "ServerCommandProbe",
    "SslRead", "SslReadEx", "SslRetRead", "SslRetReadEx",
    "SslRetWrite", "SslRetWriteEx", "SslWrite", "SslWriteEx",
    "SysEnterAccept4", "SysEnterConnect", "SysEnterRead", "SysEnterWrite",
    "SysExitAccept4", "SysExitConnect", "SysExitRead", "SysExitWrite",
    "TcpRecvmsg", "TcpSendmsg"]

  /** The maps, in the order `tracerMaps.Close` passes them. */
  const MapCloseOrder: seq<string> := [
    "AcceptSyscallContext", "ChunksBuffer", "ConnectSyscallInfo", "ConnectionContext",
    "GoKernelReadContext", "GoKernelWriteContext", "GoReadContext",
    "GoUserKernelReadContext", "GoUserKernelWriteContext", "GoWriteContext",
    "GoidOffsetsMap", "Heap", "LogBuffer", "MysqlCommandHeap", "MysqlQueries",
    "OpensslReadContext", "OpensslWriteContext", "PidsMap"]

  /** `tracerObjects.Close`: the programs as one closer, then the maps as another. */
  method CloseObjects<E>(outcome: string -> Option<E>) returns (err: Option<E>, programsClosed: seq<string>, mapsClosed: seq<string>)
    ensures programsClosed <= ProgramCloseOrder && mapsClosed <= MapCloseOrder
    ensures mapsClosed != [] ==> programsClosed == ProgramCloseOrder
    ensures (exists i :: 0 <= i < |ProgramCloseOrder| && outcome(ProgramCloseOrder[i]).Some?) ==> mapsClosed == [] && err.Some?
    ensures err.None? <==>
      && programsClosed == ProgramCloseOrder && mapsClosed == MapCloseOrder
      && (forall i :: 0 <= i < |ProgramCloseOrder| ==> outcome(ProgramCloseOrder[i]).None?)
      && (forall i :: 0 <= i < |MapCloseOrder| ==> outcome(MapCloseOrder[i]).None?)
    // taken together, the calls are those of one `_TracerClose` over all programs, then all maps
    ensures var called := programsClosed + mapsClosed;
      && called <= ProgramCloseOrder + MapCloseOrder
      && (err.Some? ==> called != [] && err == outcome(called[|called| - 1]))
      && (forall i :: 0 <= i < |called| - 1 ==> outcome(called[i]).None?)
  {
    mapsClosed := [];
    err, programsClosed := TracerClose(ProgramCloseOrder, outcome);
    if err.Some? {
      assert programsClosed + mapsClosed == programsClosed;
      return;
    }
    err, mapsClosed := TracerClose(MapCloseOrder, outcome);
    Sequenced(ProgramCloseOrder, MapCloseOrder, programsClosed, mapsClosed, outcome);
  }

  /** All of a first group's closers succeeded and some prefix of a second group was then closed:
    * together they read as one prefix of both groups, in order. */
  lemma Sequenced<C, E>(first: seq<C>, second: seq<C>, firstCalled: seq<C>, secondCalled: seq<C>, outcome: C -> Option<E>)
    requires firstCalled == first && secondCalled <= second
    requires forall i :: 0 <= i < |first| ==> outcome(first[i]).None?
    requires forall i :: 0 <= i < |secondCalled| - 1 ==> outcome(secondCalled[i]).None?
    ensures var called := firstCalled + secondCalled;
      && called <= first + second
      && (secondCalled != [] ==> called[|called| - 1] == secondCalled[|secondCalled| - 1])
      && (forall i :: 0 <= i < |called| - 1 ==> outcome(called[i]).None?)
  {
    var called := firstCalled + secondCalled;
    assert called == (first + second)[..|called|];
    forall i | 0 <= i < |called| - 1 ensures outcome(called[i]).None? {
      if i < |first| {
        assert called[i] == first[i];
      } else {
        assert called[i] == secondCalled[i - |first|];
      }
    }
  }
}
