/**
 * The toast notifications the dashboard shows. The toast renderer itself is
 * outside the model; what is kept is the sequence of toasts requested, in order.
 */
module Notifications {

  /** One `toast({ title, description, variant })` call; `destructive` is
      `variant: 'destructive'`, absent otherwise. */
  datatype Toast = Toast(title: string, description: string, destructive: bool)

  /** The `toast` function handed out by the toast hook, as a log of its calls. */
  class Toaster {
    var shown: seq<Toast>

    constructor ()
      ensures shown == []
    {
      shown := [];
    }

    method Show(t: Toast)
      modifies this
      ensures shown == old(shown) + [t]
    {
      shown := shown + [t];
    }
  }
}
