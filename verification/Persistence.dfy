/** The part of the store that outlives the process for a mapping: the persisted
    runtime status of each instance. */
module Persistence {
  import opened Status
  import opened Wrappers

  datatype PersistedStatus = PersistedStatus(
    publicAddress: string, publicPort: int, publicStableSince: Time, publicUpdatedAt: Time,
    privateAddress: string, privatePort: int, protocol: string)

  function Persisted(st: RuntimeStatus): PersistedStatus {
    PersistedStatus(st.publicAddress, st.publicPort, st.publicStableSince, st.publicUpdatedAt,
                    st.privateAddress, st.privatePort, st.protocol)
  }

  /** SaveRuntimeStatus */
  function Save(runtime: map<string, PersistedStatus>, id: string, st: RuntimeStatus): map<string, PersistedStatus> {
    if id == "" || st.publicAddress == "" || st.publicPort == 0 then runtime
    else runtime[id := Persisted(st)]
  }

  /** RuntimeStatus: the persisted status of an instance that had a mapping. */
  function Load(runtime: map<string, PersistedStatus>, id: string): Option<RuntimeStatus> {
    if id !in runtime || runtime[id].publicAddress == "" || runtime[id].publicPort == 0 then None
    else Some(Restored(runtime[id]))
  }

  function Restored(st: PersistedStatus): RuntimeStatus {
    NO_UPDATE.(publicAddress := st.publicAddress, publicPort := st.publicPort,
               publicStableSince := st.publicStableSince, publicUpdatedAt := st.publicUpdatedAt,
               privateAddress := st.privateAddress, privatePort := st.privatePort, protocol := st.protocol)
  }

  /** What was saved last is what is loaded, if it is a mapping: an address, a port and
      an ID. Anything else saves nothing, and nothing else is ever loaded. */
  lemma LoadAfterSave(runtime: map<string, PersistedStatus>, id: string, st: RuntimeStatus, other: string)
    ensures var saved := id != "" && st.publicAddress != "" && st.publicPort != 0;
            Load(Save(runtime, id, st), other) ==
            if saved && other == id then
              Some(RuntimeStatus(NoState, None, 0, st.publicAddress, st.publicPort, st.publicStableSince,
                                 st.publicUpdatedAt, st.privateAddress, st.privatePort, st.protocol, "",
                                 KeepAlive(NoLink, "", "", 0, 0, 0, 0, ""), PortCheck("", "", 0, 0, ""), []))
            else Load(runtime, other)
    ensures Load(runtime, other).Some? ==>
              Load(runtime, other).value.publicAddress != "" && Load(runtime, other).value.publicPort != 0
  {
  }

  /** ClearRuntimeStatus */
  function Removed(runtime: map<string, PersistedStatus>, id: string): map<string, PersistedStatus> {
    if id == "" then runtime else runtime - {id}
  }

  lemma LoadAfterRemoval(runtime: map<string, PersistedStatus>, id: string, other: string)
    ensures Load(Removed(runtime, id), other) == if id != "" && other == id then None else Load(runtime, other)
  {
  }

  function EntryOf(runtime: map<string, PersistedStatus>, id: string): Option<PersistedStatus> {
    if id in runtime then Some(runtime[id]) else None
  }
}
