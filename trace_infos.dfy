/** Per-trace information (TraceInfos): path, trace id, environment,
    event map, and the trace type derived from the environment. */
module TraceInfo {
  import opened Basics

  /** A Babeltrace trace handle id. */
  type TraceId = int

  /** A tigerbeetle event id (event_id_t), taken as 32 bits wide. */
  type EventId = u32

  /** A std::map<std::string, event_id_t>, as its entries in iteration order. */
  type EventMap = seq<(string, EventId)>

  datatype TraceInfos = TraceInfos(path: string, id: TraceId, env: map<string, string>,
                                   eventMap: EventMap, traceType: string)

  /** The trace type: "lttng-" followed by the "domain" environment entry,
      or "(unknown)" when there is none. */
  function TraceTypeOf(env: map<string, string>): (r: string)
    ensures "domain" in env ==> r == "lttng-" + env["domain"]
    ensures "domain" !in env ==> r == "(unknown)"
  {
    if "domain" !in env then "(unknown)" else "lttng-" + env["domain"]
  }

  /** The constructor: stores its inputs as given and derives the type. */
  function MakeTraceInfos(path: string, id: TraceId, env: map<string, string>, eventMap: EventMap): (r: TraceInfos)
    ensures r.path == path && r.id == id && r.env == env && r.eventMap == eventMap
    ensures r.traceType == TraceTypeOf(env)
  {
    TraceInfos(path, id, env, eventMap, TraceTypeOf(env))
  }

  /** The trace type says whether a domain was given, and which one: two
      environments give the same type exactly when they agree on "domain". */
  lemma {:induction false} TraceTypeDeterminesDomain(env1: map<string, string>, env2: map<string, string>)
    ensures TraceTypeOf(env1) == TraceTypeOf(env2) <==>
            (("domain" in env1) == ("domain" in env2) && ("domain" in env1 ==> env1["domain"] == env2["domain"]))
  {
    if "domain" in env1 && "domain" !in env2 {
      assert TraceTypeOf(env1)[0] == 'l' != TraceTypeOf(env2)[0];
    } else if "domain" !in env1 && "domain" in env2 {
      assert TraceTypeOf(env2)[0] == 'l' != TraceTypeOf(env1)[0];
    } else if "domain" in env1 && "domain" in env2 && TraceTypeOf(env1) == TraceTypeOf(env2) {
      var p := "lttng-";
      assert env1["domain"] == TraceTypeOf(env1)[|p|..];
      assert env2["domain"] == TraceTypeOf(env2)[|p|..];
    }
  }
}
