/** The dispatcher between the reconciler and the scope controllers. */
module Dispatch {
  import opened BladeTypes

  /** A scope controller's answer; `result` is the experiment status it filled in, if any. */
  datatype Response = Response(success: bool, err: string, result: Option<ExpStatus>)

  const NO_STATUS := ExpStatus("", "", "", false, "", "", [])

  /** createExperimentStatusByResponse. */
  function FromResponse(r: Response): ExpStatus {
    if r.result.Some? then r.result.value
    else if r.success then NO_STATUS.(success := true, state := "Success")
    else NO_STATUS.(success := false, state := "Error", error := r.err)
  }

  function Header(st: ExpStatus, scope: string, target: string, action: string): ExpStatus {
    st.(scope := scope, target := target, action := action)
  }

  /** Create, given the answer of the controller registered for the scope (None: there is none). */
  function Create(exp: ExpSpec, answer: Option<Response>): ExpStatus {
    match answer
    case None => NO_STATUS.(state := "Error", error := "can not find the scope controller for creating")
    case Some(r) => Header(FromResponse(r), exp.scope, exp.target, exp.action)
  }

  function KeepState(st: ExpStatus, was: ExpStatus): ExpStatus {
    Header(if st.state == "Error" then st.(state := was.state) else st, was.scope, was.target, was.action)
  }

  /** validateAndSetNecessaryFields. The inner loops range over copies of the resource statuses, so
      what they assign is lost: the resource list comes back as it was. */
  method ValidateAndSet(status: ExpStatus, was: ExpStatus) returns (r: ExpStatus)
    ensures r == KeepState(status, was)
    ensures (r.scope, r.target, r.action) == (was.scope, was.target, was.action)
    ensures r.state == (if status.state == "Error" then was.state else status.state)
    ensures r.resources == status.resources && r.success == status.success && r.error == status.error
  {
    r := status.(scope := was.scope, target := was.target, action := was.action);
    if r.state == "Error" {
      r := r.(state := was.state);
    }
    for i := 0 to |r.resources|
      invariant r == KeepState(status, was)
    {
      var s := r.resources[i];
      for j := 0 to |was.resources|
        invariant r == KeepState(status, was)
      {
        var w := was.resources[j];
        if s.id == w.id && s.state == "Error" {
          s := s.(state := w.state);
        }
      }
    }
  }

  function DestroyedRes(st: ResStatus): ResStatus {
    ResStatus(st.id, "Destroyed", 0, "", true, st.kind, st.identifier)
  }

  /** CreateDestroyedStatus: same resources in the same order, all marked destroyed, header dropped. */
  method CreateDestroyedStatus(was: ExpStatus) returns (r: ExpStatus)
    ensures r.success && r.state == "Destroyed" && |r.resources| == |was.resources|
    ensures forall i :: 0 <= i < |was.resources| ==>
              && r.resources[i].id == was.resources[i].id && r.resources[i].state == "Destroyed"
              && r.resources[i].success && r.resources[i].code == 0 && r.resources[i].error == ""
              && r.resources[i].kind == was.resources[i].kind && r.resources[i].identifier == was.resources[i].identifier
  {
    var list: seq<ResStatus> := [];
    for i := 0 to |was.resources|
      invariant |list| == i
      invariant forall j :: 0 <= j < i ==> list[j] == DestroyedRes(was.resources[j])
    {
      list := list + [DestroyedRes(was.resources[i])];
    }
    r := NO_STATUS.(success := true, state := "Destroyed", resources := list);
  }

  /** Destroy: no controller is an error, no resources is success at once, otherwise the controller's
      answer under the old header. */
  function Destroy(was: ExpStatus, known: bool, answer: Response): ExpStatus {
    if !known then NO_STATUS.(state := "Error", error := "can not find the scope controller for destroying")
    else if was.resources == [] then NO_STATUS.(success := true, state := "Destroyed")
    else KeepState(FromResponse(answer), was)
  }

  /** What the dispatcher makes of a controller's answer, case by case. */
  lemma CreateCases(exp: ExpSpec, r: Response)
    ensures var st := Create(exp, Some(r));
            && (st.scope, st.target, st.action) == (exp.scope, exp.target, exp.action)
            && (r.result.Some? ==> st.success == r.result.value.success && st.state == r.result.value.state
                                   && st.error == r.result.value.error && st.resources == r.result.value.resources)
            && (r.result.None? ==> st.success == r.success && st.resources == []
                                   && st.state == (if r.success then "Success" else "Error")
                                   && st.error == (if r.success then "" else r.err))
    ensures var st := Create(exp, None); !st.success && st.state == "Error" && st.resources == []
  {
  }

  lemma DestroyCases(was: ExpStatus, r: Response)
    ensures var st := Destroy(was, false, r); !st.success && st.state == "Error" && st.resources == []
    ensures was.resources == [] ==>
              var st := Destroy(was, true, r); st.success && st.state == "Destroyed" && st.resources == []
    ensures was.resources != [] ==>
              var st := Destroy(was, true, r);
              && (st.scope, st.target, st.action) == (was.scope, was.target, was.action)
              && (r.result.Some? ==>
                    && st.success == r.result.value.success && st.resources == r.result.value.resources
                    && st.state == (if r.result.value.state == "Error" then was.state else r.result.value.state))
              && (r.result.None? ==>
                    && st.success == r.success && st.resources == []
                    && st.state == (if r.success then "Success" else was.state))
  {
  }
}
