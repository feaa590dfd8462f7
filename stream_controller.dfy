/**
 * The backend's stream controller: the socket handlers' entry point, which
 * keeps its own table of analyses by socket id next to the monitor
 * service's table and forwards start, profile selection and stop to the
 * service.
 */
module StreamController {
  import opened Strings
  import opened M3U8Parser
  import opened HlsMonitorService

  const AlreadyInProgress := "Analysis already in progress for this session"
  const NoActiveSession := "No active analysis session found"

  class StreamController {
    /** The monitor service singleton the controller forwards to. */
    const service: HLSMonitorService
    /** socket id -> the monitor started for that socket */
    var activeStreams: map<string, StreamMonitor>

    /**
     * Every analysis the controller knows of is the monitor the service
     * holds under the same socket id, started for a socket of that id, and
     * in a consistent state. (The converse does not hold: a monitor whose
     * start failed stays in the service's table only.)
     */
    ghost predicate Valid()
      reads this, service, activeStreams.Values, set m | m in activeStreams.Values :: m.socket
    {
      forall id :: id in activeStreams ==> Tracked(id, activeStreams[id])
    }

    /** The service holds `m` under `id`, `m` watches a socket with that id, and `m` is consistent. */
    ghost predicate Tracked(id: string, m: StreamMonitor)
      reads service, m, m.socket
    {
      && m.socket.id == id
      && id in service.activeMonitors && service.activeMonitors[id] == m
      && m.Valid()
    }

    constructor(service: HLSMonitorService)
      ensures this.service == service && activeStreams == map[]
      ensures Valid()
    {
      this.service := service;
      activeStreams := map[];
    }

    /**
     * `startAnalysis`: a socket that already has an analysis is refused
     * before anything happens; otherwise the service starts a monitor and,
     * only when that start succeeds, it is stored under the socket id. A
     * failed start is rethrown and leaves the controller's table as it was,
     * while the service keeps the failed monitor.
     */
    method StartAnalysis(playerUrl: string, socket: Socket, master: Result<ManifestFetch>) returns (r: Result<()>)
      requires Valid()
      modifies this`activeStreams, service`activeMonitors, socket`emitted
      ensures Valid()
      ensures socket.id in old(activeStreams) ==>
        && r == Fail(AlreadyInProgress)
        && activeStreams == old(activeStreams)
        && service.activeMonitors == old(service.activeMonitors)
        && socket.emitted == old(socket.emitted)
      ensures socket.id !in old(activeStreams) ==>
        && socket.id in service.activeMonitors
        && var m := service.activeMonitors[socket.id];
        && fresh(m) && m.playerUrl == playerUrl && m.socket == socket && m.isRunning
        && m.baseUrl == GetBaseUrl(playerUrl) && m.Unselected()
        && service.activeMonitors == old(service.activeMonitors)[socket.id := m]
        && (r.Ok? <==> MasterProfiles(master).Ok?)
        && (r.Fail? ==>
              && r.message == MasterProfiles(master).message && activeStreams == old(activeStreams)
              && socket.emitted == old(socket.emitted) + [Error(r.message)])
        && (r.Ok? ==>
              var data := MasterData(playerUrl, master.value, |m.profiles|);
              && activeStreams == old(activeStreams)[socket.id := m]
              && m.profiles == MasterProfiles(master).value
              && socket.emitted == old(socket.emitted) + [ManifestUpdate(ManifestEntryOf(data, true)), ProfilesAvailable(m.profiles)])
    {
      if socket.id in activeStreams {
        return Fail(AlreadyInProgress);
      }
      label before:
      var started := service.StartMonitor(playerUrl, socket, master);
      forall id | id in activeStreams
        ensures Tracked(id, activeStreams[id])
      {
        var m := activeStreams[id];
        assert old@before(Tracked(id, m));
        assert m.socket != socket by {
          assert m.socket.id == id;
        }
      }
      if started.Fail? {
        return Fail(started.message);
      }
      activeStreams := activeStreams[socket.id := started.value];
      r := Ok(());
    }

    /**
     * `selectProfile`: without an analysis for the socket it fails with
     * "No active analysis session found"; otherwise the monitor selects the
     * profile and its error, if any, is rethrown.
     */
    method SelectProfile(uri: string, socket: Socket) returns (r: Result<()>)
      requires Valid()
      modifies if socket.id in activeStreams then {activeStreams[socket.id]} else {}
      ensures Valid()
      ensures socket.id !in activeStreams ==> r == Fail(NoActiveSession)
      ensures socket.id in activeStreams ==>
        var m: StreamMonitor := activeStreams[socket.id];
        && m.selectedProfile == FindProfile(m.profiles, uri)
        && (r.Ok? <==> m.selectedProfile.Some? && ResolveUrl(m.playerUrl, uri).Ok?)
        && (m.selectedProfile.None? ==> r == Fail(ProfileNotFound))
        && (m.selectedProfile.Some? && ResolveUrl(m.playerUrl, uri).Fail? ==> r == Fail(ResolveUrl(m.playerUrl, uri).message))
        && (r.Fail? ==>
              && m.currentProfileUrl == old(m.currentProfileUrl) && m.lastMediaSequence == old(m.lastMediaSequence)
              && m.seenSegments == old(m.seenSegments) && m.isRunning == old(m.isRunning))
        && (r.Ok? ==>
              && m.currentProfileUrl == Some(ResolveUrl(m.playerUrl, uri).value)
              && m.lastMediaSequence.None? && m.seenSegments == {} && m.isRunning)
        && unchanged(m`profiles, m`manifests, m`segments, m`manifestHistory, m`segmentHistory)
    {
      if socket.id !in activeStreams {
        return Fail(NoActiveSession);
      }
      var monitor := activeStreams[socket.id];
      assert Tracked(socket.id, monitor);
      label before:
      r := service.SelectProfile(monitor, uri);
      forall id | id in activeStreams
        ensures Tracked(id, activeStreams[id])
      {
        var m := activeStreams[id];
        if id != socket.id {
          assert old@before(Tracked(id, m));
          assert m != monitor && m.socket != monitor.socket by {
            assert m.socket.id == id;
          }
        }
      }
    }

    /**
     * `stopAnalysis`: a socket with an analysis has its monitor stopped and
     * removed from both tables; a socket without one changes nothing, so
     * stopping twice is the same as stopping once. Of the monitor only its
     * running flag changes.
     */
    method StopAnalysis(socket: Socket)
      requires Valid()
      modifies this`activeStreams, service`activeMonitors,
               (if socket.id in activeStreams then {activeStreams[socket.id]} else {})`isRunning
      ensures Valid()
      ensures socket.id !in activeStreams
      ensures activeStreams == old(activeStreams) - {socket.id}
      ensures socket.id in old(activeStreams) ==>
        && !old(activeStreams)[socket.id].isRunning
        && service.activeMonitors == old(service.activeMonitors) - {socket.id}
      ensures socket.id !in old(activeStreams) ==> service.activeMonitors == old(service.activeMonitors)
    {
      if socket.id in activeStreams {
        var monitor := activeStreams[socket.id];
        assert Tracked(socket.id, monitor);
        label before:
        service.StopMonitor(monitor);
        activeStreams := activeStreams - {socket.id};
        forall id | id in activeStreams
          ensures Tracked(id, activeStreams[id])
        {
          var m := activeStreams[id];
          assert old@before(Tracked(id, m));
          assert m != monitor && m.socket != monitor.socket by {
            assert m.socket.id == id;
          }
        }
      }
    }

    /** `getActiveStreams`: the socket ids with an analysis, each once. */
    method GetActiveStreams() returns (ids: seq<string>)
      ensures forall id :: id in ids <==> id in activeStreams
      ensures forall i, j :: 0 <= i < j < |ids| ==> ids[i] != ids[j]
      ensures |ids| == |activeStreams|
    {
      ids := [];
      var rest := activeStreams.Keys;
      while rest != {}
        invariant rest <= activeStreams.Keys
        invariant forall id :: id in ids <==> id in activeStreams && id !in rest
        invariant forall i, j :: 0 <= i < j < |ids| ==> ids[i] != ids[j]
        invariant |ids| + |rest| == |activeStreams|
        decreases |rest|
      {
        var id :| id in rest;
        ids := ids + [id];
        rest := rest - {id};
      }
    }

    /** `getStreamCount`: the number of socket ids `GetActiveStreams` lists. */
    method GetStreamCount() returns (n: nat)
      ensures n == |activeStreams|
    {
      n := |activeStreams|;
    }
  }
}
