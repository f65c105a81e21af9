/** The pages the earlier generation's router switches between (routes.rs). */
module Routes {
  import opened Wrappers

  datatype Route =
    | Scopes(parent: Option<string>)
    | Targets(scope: string)
    | Sessions(scopeId: string, targetId: string)
}
