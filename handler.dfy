/**
 * handler.go: the base controller.  A controller embeds a Handler, which
 * carries the URL prefix its routes are registered under and supplies the
 * default Init (nothing) and Preload (pass the request on).
 */
module Handler {
  import opened Wrappers
  import Context

  class Handler {
    var prefix: string

    /** A Handler's zero value: no prefix. */
    constructor ()
      ensures prefix == ""
    {
      prefix := "";
    }

    /** SetPrefix: the prefix the controller's routes are registered under. */
    method SetPrefix(p: string)
      modifies this
      ensures prefix == p
    {
      prefix := p;
    }

    /** Prefix: the prefix last set, "" for a fresh Handler. */
    function Prefix(): string
      reads this
    {
      prefix
    }

    /** Init: the default initialisation does nothing. */
    method Init()
      ensures unchanged(this)
    {
    }

    /**
     * Preload: the default pre-processing hands the request on to the next
     * matching route, forgetting the current match and recording no error.
     */
    method Preload(c: Context.Ctx) returns (resume: bool)
      modifies c
      ensures resume && c.route.None? && c.values == [] && c.err == old(c.err)
      ensures c.fctx == old(c.fctx) && c.index == old(c.index) && c.verb == old(c.verb) && c.path == old(c.path)
      ensures unchanged(this)
    {
      resume := c.Next(None);
    }
  }
}
