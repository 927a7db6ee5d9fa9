/** The manager's sets of watched users are what the watcher's list holds. */
module WatcherLaws {
  import opened Common
  import ControlModel
  import opened PSIWatcher

  /** The users watched for either type, as the manager sees them. */
  function Seen(ms: seq<Monitor>): ControlModel.Monitored {
    ControlModel.Monitored(WatchedUsers(ms, CPU), WatchedUsers(ms, IO))
  }

  /** What AddMonitor is told about one user: its two files. */
  datatype Files = Files(cpu: Option<Fd>, io: Option<Fd>)

  /** AddMonitor for both files of each of the users. */
  function AddAll(ms: seq<Monitor>, thresholds: set<Kind>, users: seq<Uid>, files: map<Uid, Files>): seq<Monitor>
    requires forall u | u in users :: u in files
  {
    if users == [] then ms
    else
      var uid := users[|users| - 1];
      var before := AddAll(ms, thresholds, users[..|users| - 1], files);
      Add(Add(before, CPU in thresholds, uid, CPU, files[uid].cpu), IO in thresholds, uid, IO, files[uid].io)
  }

  function RemoveAll(ms: seq<Monitor>, users: seq<Uid>): seq<Monitor> {
    if users == [] then ms
    else
      var uid := users[|users| - 1];
      Remove(Remove(RemoveAll(ms, users[..|users| - 1]), uid, CPU), uid, IO)
  }

  /** The calls that fail: no threshold for the type, or no file. */
  function Fails(thresholds: set<Kind>, users: set<Uid>, files: map<Uid, Files>): ControlModel.Monitored
    requires users <= files.Keys
  {
    ControlModel.Monitored(set u | u in users && !(CPU in thresholds && files[u].cpu.Some?),
                           set u | u in users && !(IO in thresholds && files[u].io.Some?))
  }

  function UsersOf(users: seq<Uid>): set<Uid> { set u | u in users }

  /** In whatever order the users come, the watcher ends up with what the manager's step says. */
  lemma {:induction false} AdditionsAreSeen(ms: seq<Monitor>, thresholds: set<Kind>, users: seq<Uid>, files: map<Uid, Files>)
    requires forall u | u in users :: u in files
    ensures Seen(AddAll(ms, thresholds, users, files))
         == ControlModel.Watch(true, Seen(ms), UsersOf(users), Fails(thresholds, UsersOf(users), files))
  {
    hide WatchedUsers, Add;
    if users != [] {
      var before, uid := users[..|users| - 1], users[|users| - 1];
      AdditionsAreSeen(ms, thresholds, before, files);
      var first := AddAll(ms, thresholds, before, files);
      var second := Add(first, CPU in thresholds, uid, CPU, files[uid].cpu);
      AddWatches(first, CPU in thresholds, uid, CPU, files[uid].cpu, CPU);
      AddWatches(first, CPU in thresholds, uid, CPU, files[uid].cpu, IO);
      AddWatches(second, IO in thresholds, uid, IO, files[uid].io, CPU);
      AddWatches(second, IO in thresholds, uid, IO, files[uid].io, IO);
      assert users == before + [uid];
      assert UsersOf(users) == UsersOf(before) + {uid};
      OneMore(Seen(ms), thresholds, UsersOf(before), uid, files);
    }
  }

  lemma OneMore(seen: ControlModel.Monitored, thresholds: set<Kind>, users: set<Uid>, uid: Uid, files: map<Uid, Files>)
    requires users + {uid} <= files.Keys
    ensures var before := ControlModel.Watch(true, seen, users, Fails(thresholds, users, files));
            ControlModel.Watch(true, seen, users + {uid}, Fails(thresholds, users + {uid}, files))
            == ControlModel.Monitored(
                 if CPU in thresholds && files[uid].cpu.Some? then before.cpu + {uid} else before.cpu,
                 if IO in thresholds && files[uid].io.Some? then before.io + {uid} else before.io)
  {
  }

  lemma {:induction false} RemovalsAreSeen(ms: seq<Monitor>, users: seq<Uid>)
    ensures Seen(RemoveAll(ms, users)) == ControlModel.Unwatch(true, Seen(ms), UsersOf(users))
  {
    hide WatchedUsers, Remove;
    if users != [] {
      var before, uid := users[..|users| - 1], users[|users| - 1];
      RemovalsAreSeen(ms, before);
      var first := RemoveAll(ms, before);
      RemoveUnwatches(first, uid, CPU, CPU);
      RemoveUnwatches(first, uid, CPU, IO);
      RemoveUnwatches(Remove(first, uid, CPU), uid, IO, CPU);
      RemoveUnwatches(Remove(first, uid, CPU), uid, IO, IO);
      assert users == before + [uid];
      assert UsersOf(users) == UsersOf(before) + {uid};
    }
  }
}
