/**
 * The per-request Hono context of the guarded routes
 * (apps/server/src/types/hono.ts) and the `next` continuation: `nextCalls`
 * counts how often a middleware handed the request on.
 */
module RequestContext {
  import opened Wrappers

  class Context {
    var userId: Option<string>
    var token: Option<string>
    var userRole: Option<string>
    var nextCalls: nat

    /** A request before any middleware has run. */
    constructor ()
      ensures userId.None? && token.None? && userRole.None? && nextCalls == 0
    {
      userId := None;
      token := None;
      userRole := None;
      nextCalls := 0;
    }
  }
}
