/**
 * The role checks used as endpoint permissions
 * (careernavigator/util/api.py: SuperuserPermission, MentorPermission,
 * JobseekerPermission). Only the requesting user's role flags matter.
 */
module Permissions {
  datatype User = User(isSuperuser: bool, isMentor: bool, isJobseeker: bool)

  /** Exactly the superusers pass, and they pass the two role checks as well. */
  function SuperuserPermission(u: User): (granted: bool)
    ensures granted <==> u.isSuperuser
    ensures granted ==> MentorPermission(u) && JobseekerPermission(u)
  {
    u.isSuperuser
  }

  /** Superusers pass; anyone else passes exactly when a mentor. */
  function MentorPermission(u: User): (granted: bool)
    ensures u.isSuperuser ==> granted
    ensures !u.isSuperuser ==> (granted <==> u.isMentor)
  {
    u.isMentor || u.isSuperuser
  }

  /** Superusers pass; anyone else passes exactly when a jobseeker. */
  function JobseekerPermission(u: User): (granted: bool)
    ensures u.isSuperuser ==> granted
    ensures !u.isSuperuser ==> (granted <==> u.isJobseeker)
  {
    u.isJobseeker || u.isSuperuser
  }

  /** The four seeded accounts and the checks they pass. */
  const Mentor := User(false, true, false)
  const Jobseeker := User(false, false, true)
  const Superuser := User(true, false, false)
  const Noone := User(false, false, false)

  lemma SeededAccounts()
    ensures SuperuserPermission(Superuser) && !SuperuserPermission(Jobseeker)
    ensures !SuperuserPermission(Mentor) && !SuperuserPermission(Noone)
    ensures JobseekerPermission(Superuser) && JobseekerPermission(Jobseeker)
    ensures !JobseekerPermission(Mentor) && !JobseekerPermission(Noone)
    ensures MentorPermission(Superuser) && !MentorPermission(Jobseeker)
    ensures MentorPermission(Mentor) && !MentorPermission(Noone)
  {
  }
}
