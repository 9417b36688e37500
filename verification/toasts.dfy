/** The toast list: append a toast with a defaulted timeout (scheduling its
    removal when the timeout is positive), remove the first toast with an
    id, clear. The timer itself is not modelled: a scheduled removal is
    returned as data, to be run later with `Remove`. */
module Toasts {
  import opened Wrappers
  import Seqs

  /** What the caller passes: an optional id and timeout, plus the rest of
      the notification. */
  datatype ToastRequest<P> = ToastRequest(id: Option<string>, timeout: Option<int>, payload: P)

  datatype Toast<P> = Toast(id: string, timeout: int, payload: P)

  /** A removal of the toast with id `id`, due after `delay` milliseconds. */
  datatype Removal = Removal(id: string, delay: int)

  datatype Added<P> = Added(toasts: seq<Toast<P>>, toast: Toast<P>, removal: Option<Removal>)

  const DefaultTimeout := 5000

  /** `timeout || 5000`: an absent or zero timeout becomes the default. */
  function EffectiveTimeout(t: Option<int>): (r: int)
    ensures r != 0
    ensures t.Some? && t.value != 0 ==> r == t.value
    ensures t.None? || t.value == 0 ==> r == DefaultTimeout
  {
    if t.Some? && t.value != 0 then t.value else DefaultTimeout
  }

  /** Appends a toast under `generatedId` (the current millisecond clock
      reading as a decimal string); an id in the request takes its place on
      the stored toast. A removal of `generatedId` is scheduled when the
      timeout is positive. */
  function Add<P>(ts: seq<Toast<P>>, req: ToastRequest<P>, generatedId: string): (r: Added<P>)
    ensures r.toasts == ts + [r.toast]
    ensures r.toast.id == req.id.GetOr(generatedId)
    ensures r.toast.payload == req.payload
    ensures r.toast.timeout == EffectiveTimeout(req.timeout)
    ensures r.removal.Some? <==> r.toast.timeout > 0
    ensures r.removal.Some? ==> r.removal.value == Removal(generatedId, r.toast.timeout)
  {
    var t := Toast(req.id.GetOr(generatedId), EffectiveTimeout(req.timeout), req.payload);
    Added(ts + [t], t, if t.timeout > 0 then Some(Removal(generatedId, t.timeout)) else None)
  }

  function IndexOfId<P>(ts: seq<Toast<P>>, id: string): (r: Option<nat>)
    ensures r.Some? ==> r.value < |ts| && ts[r.value].id == id
    ensures r.Some? ==> forall j :: 0 <= j < r.value ==> ts[j].id != id
    ensures r.None? <==> forall j :: 0 <= j < |ts| ==> ts[j].id != id
  {
    Seqs.FirstIndex(ts, (t: Toast<P>) => t.id == id)
  }

  /** Removes the first toast with this id; no-op when there is none. */
  function Remove<P>(ts: seq<Toast<P>>, id: string): (r: seq<Toast<P>>)
    ensures (forall j :: 0 <= j < |ts| ==> ts[j].id != id) ==> r == ts
    ensures IndexOfId(ts, id).Some? ==>
      var i := IndexOfId(ts, id).value;
      && |r| == |ts| - 1
      && r == ts[..i] + ts[i + 1..]
  {
    match IndexOfId(ts, id)
    case None => ts
    case Some(i) => Seqs.RemoveAt(ts, i)
  }

  function Clear<P>(ts: seq<Toast<P>>): (r: seq<Toast<P>>)
    ensures |r| == 0
  {
    []
  }

  /** A toast added without its own id, under a generated id no other toast
      has, is taken out again by its scheduled removal. */
  lemma ScheduledRemovalUndoesAdd<P>(ts: seq<Toast<P>>, req: ToastRequest<P>, generatedId: string)
    requires req.id.None?
    requires forall j :: 0 <= j < |ts| ==> ts[j].id != generatedId
    ensures var a := Add(ts, req, generatedId);
      a.removal.Some? ==> Remove(a.toasts, a.removal.value.id) == ts
  {
    var a := Add(ts, req, generatedId);
    var s := a.toasts;
    assert s[|ts|].id == generatedId;
    var i := IndexOfId(s, generatedId).value;
    assert i == |ts|;
    assert s[..i] + s[i + 1..] == ts;
  }

  /** When the request carries its own id, different from the generated one,
      the scheduled removal looks for the generated id and finds nothing:
      the toast stays in the list. */
  lemma ScheduledRemovalMissesOverriddenId<P>(ts: seq<Toast<P>>, req: ToastRequest<P>, generatedId: string)
    requires req.id.Some? && req.id.value != generatedId
    requires forall j :: 0 <= j < |ts| ==> ts[j].id != generatedId
    ensures var a := Add(ts, req, generatedId);
      && a.removal.Some? == (a.toast.timeout > 0)
      && (a.removal.Some? ==> Remove(a.toasts, a.removal.value.id) == a.toasts)
      && a.toast in a.toasts
  {
    var a := Add(ts, req, generatedId);
    assert forall j :: 0 <= j < |a.toasts| ==> a.toasts[j].id != generatedId by {
      forall j | 0 <= j < |a.toasts| ensures a.toasts[j].id != generatedId {
        if j < |ts| { assert a.toasts[j] == ts[j]; }
      }
    }
  }

  /** A negative timeout is kept as given and schedules nothing, so the
      toast stays until removed by hand. */
  lemma NegativeTimeoutNeverExpires<P>(ts: seq<Toast<P>>, req: ToastRequest<P>, generatedId: string)
    requires req.timeout.Some? && req.timeout.value < 0
    ensures Add(ts, req, generatedId).toast.timeout == req.timeout.value
    ensures Add(ts, req, generatedId).removal.None?
  {
  }
}
