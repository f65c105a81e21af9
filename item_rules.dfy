/**
 * What each table matches a search text against, and the order each
 * table sorts its items in (the FilterItems and SortItems impls of the
 * page modules of both generations).
 */
module ItemRules {
  import opened Text
  import opened Models
  import opened Sorting

  /** Targets match on name, description or id. */
  function TargetMatches(t: Target, search: string): (r: bool)
    ensures search == [] ==> r
    ensures r <==> MatchStr(t.name, search) || MatchStr(t.description, search) || MatchStr(t.id, search)
  {
    MatchStrEmpty(t.name);
    MatchStr(t.name, search) || MatchStr(t.description, search) || MatchStr(t.id, search)
  }

  /** Scopes match on name, description or id. */
  function ScopeMatches(s: Scope, search: string): (r: bool)
    ensures search == [] ==> r
    ensures r <==> MatchStr(s.name, search) || MatchStr(s.description, search) || MatchStr(s.id, search)
  {
    MatchStrEmpty(s.name);
    MatchStr(s.name, search) || MatchStr(s.description, search) || MatchStr(s.id, search)
  }

  /** Sessions of the older table match on id, target id, type, status or creation time. */
  function SessionMatches(s: Session, search: string): (r: bool)
    ensures search == [] ==> r
    ensures r <==> MatchStr(s.id, search) || MatchStr(s.targetId, search) || MatchStr(s.sessionType, search)
                   || MatchStr(s.status, search) || MatchStr(s.createdText, search)
  {
    MatchStrEmpty(s.id);
    MatchStr(s.id, search) || MatchStr(s.targetId, search) || MatchStr(s.sessionType, search)
      || MatchStr(s.status, search) || MatchStr(s.createdText, search)
  }

  /** Sessions with their target also match on the target's name. */
  function SessionWithTargetMatches(s: SessionWithTarget, search: string): (r: bool)
    ensures search == [] ==> r
    ensures r <==> MatchStr(s.session.id, search) || MatchStr(s.target.id, search) || MatchStr(s.target.name, search)
                   || MatchStr(s.session.sessionType, search) || MatchStr(s.session.status, search)
                   || MatchStr(s.session.createdText, search)
  {
    MatchStrEmpty(s.session.id);
    MatchStr(s.session.id, search) || MatchStr(s.target.id, search) || MatchStr(s.target.name, search)
      || MatchStr(s.session.sessionType, search) || MatchStr(s.session.status, search)
      || MatchStr(s.session.createdText, search)
  }

  /** Credentials match on the username or the credential source's name. */
  function CredentialMatches(c: CredentialEntry, search: string): (r: bool)
    ensures search == [] ==> r
    ensures r <==> MatchStr(c.credential.username, search) || MatchStr(c.source.name, search)
  {
    MatchStrEmpty(c.credential.username);
    MatchStr(c.credential.username, search) || MatchStr(c.source.name, search)
  }

  // ---- orders -----------------------------------------------------------

  function ScopeNameLe(a: Scope, b: Scope): bool { StrLe(a.name, b.name) }

  function SessionTimeLe(a: Session, b: Session): bool { a.createdTime <= b.createdTime }

  function SessionWithTargetTimeLe(a: SessionWithTarget, b: SessionWithTarget): bool {
    a.session.createdTime <= b.session.createdTime
  }

  function CredentialUsernameLe(a: CredentialEntry, b: CredentialEntry): bool {
    StrLe(a.credential.username, b.credential.username)
  }

  /** Comparing by a string key with Rust's String order is a total preorder. */
  lemma NameOrdersArePreorders()
    ensures TotalPreorder(TargetLe)
    ensures TotalPreorder(ScopeNameLe)
    ensures TotalPreorder(CredentialUsernameLe)
  {
    forall a: string, b: string ensures StrLe(a, b) || StrLe(b, a) { StrLeTotal(a, b); }
    forall a: string, b: string, c: string | StrLe(a, b) && StrLe(b, c) ensures StrLe(a, c) {
      StrLeTransitive(a, b, c);
    }
  }

  lemma TimeOrdersArePreorders()
    ensures TotalPreorder(SessionTimeLe)
    ensures TotalPreorder(SessionWithTargetTimeLe)
  {
  }
}
