/** `isPrivileged`: a member is privileged exactly when it holds the configured role. */
module Privilege {

  import opened Platform

  predicate IsPrivileged(member: Member, role: Id)
  {
    role in member.roles
  }

  /** Only the role set decides, an empty one never qualifies, and more roles never take privilege away. */
  lemma PrivilegeMonotone(m: Member, other: Id, extra: set<Id>, role: Id)
    ensures IsPrivileged(m, role) ==> IsPrivileged(Member(m.id, m.roles + extra), role)
    ensures IsPrivileged(Member(m.id, {}), role) == false
    ensures IsPrivileged(m, role) == IsPrivileged(Member(other, m.roles), role)
  {
  }
}
