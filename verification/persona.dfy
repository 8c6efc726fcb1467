/** The system message main.py sends first: a persona addressed to the
    signed-in user, mentioning company, job title and department only when
    they are known. */
module Persona {
  import opened Ascii
  import Accounts

  const PersonaLead := "You are a helpful Sumersault assistant for "
  const CompanyLead := " at "
  const JobLead := ", who works as "
  const DepartmentLead := " in the "
  const DepartmentClose := " department"
  /** The fixed instructions closing the persona; they open with a full stop. */
  const PersonaTail := "." + PersonaInstructions
  const PersonaInstructions :=
    " You are branded with green colors and provide accurate, professional, and concise information to help the user. When users upload files, analyze their content and provide relevant insights or assistance."

  /** An optional fragment: empty when the value is empty. */
  function Clause(lead: string, value: string, close: string): string {
    if value == "" then "" else lead + value + close
  }

  /** The optional fragments between the name and the fixed instructions. */
  function Fragments(company: string, jobTitle: string, department: string): string {
    Clause(CompanyLead, company, "") + Clause(JobLead, jobTitle, "")
      + Clause(DepartmentLead, department, DepartmentClose)
  }

  function Persona(name: string, company: string, jobTitle: string, department: string): (r: string)
    ensures HasPrefix(r, PersonaLead + name) && EndsWith(r, PersonaTail)
    ensures |r| >= |PersonaLead| + |name| + |PersonaTail|
    ensures |r| == |PersonaLead| + |name| + |PersonaTail| <==> company == "" && jobTitle == "" && department == ""
  {
    Framed(PersonaLead + name, Fragments(company, jobTitle, department), PersonaTail);
    PersonaLead + name + Fragments(company, jobTitle, department) + PersonaTail
  }

  /** The persona for a stored user, company derived from the e-mail. */
  function SystemMessage(u: Accounts.UserRecord): (r: string)
    ensures HasPrefix(r, PersonaLead + u.name)
    ensures |r| == |PersonaLead| + |u.name| + |PersonaTail| <==>
      Accounts.Company(u) == "" && u.jobTitle == "" && u.department == ""
    ensures '@' !in u.email ==> r == Persona(u.name, "", u.jobTitle, u.department)
  {
    Persona(u.name, Accounts.Company(u), u.jobTitle, u.department)
  }

  /** The persona opens with the lead and the user's name and closes with the
      fixed instructions; with no company, job title or department it is
      nothing more. */
  lemma PersonaFrame(name: string, company: string, jobTitle: string, department: string)
    ensures HasPrefix(Persona(name, company, jobTitle, department), PersonaLead + name)
    ensures EndsWith(Persona(name, company, jobTitle, department), PersonaTail)
    ensures company == "" && jobTitle == "" && department == "" ==>
      Persona(name, company, jobTitle, department) == PersonaLead + name + PersonaTail
  {
    Framed(PersonaLead + name, Fragments(company, jobTitle, department), PersonaTail);
  }

  lemma Framed(head: string, mid: string, tail: string)
    ensures HasPrefix(head + mid + tail, head)
    ensures EndsWith(head + mid + tail, tail)
    ensures mid == "" ==> head + mid + tail == head + tail
  {
    assert (head + mid + tail)[..|head|] == head;
    assert (head + mid + tail)[|head + mid|..] == tail;
  }

  /** Each fragment appears at its place exactly when its field is non-empty:
      right after the name the text starts with " at " iff there is a
      company; after that clause it starts with ", who works as " iff there is
      a job title; after that, with " in the " iff there is a department. */
  lemma FragmentsIffFields(name: string, company: string, jobTitle: string, department: string)
    ensures
      var p := Persona(name, company, jobTitle, department);
      var atCompany := |PersonaLead + name|;
      var atJob := atCompany + |Clause(CompanyLead, company, "")|;
      var atDepartment := atJob + |Clause(JobLead, jobTitle, "")|;
      && atDepartment <= |p|
      && SlotShows(p[atCompany..], CompanyLead, company, "")
      && SlotShows(p[atJob..], JobLead, jobTitle, "")
      && SlotShows(p[atDepartment..], DepartmentLead, department, DepartmentClose)
  {
    TailOpensWithStop();
    FragmentSlots(PersonaLead + name, company, jobTitle, department, PersonaTail);
  }

  lemma TailOpensWithStop()
    ensures |PersonaTail| > 0 && PersonaTail[0] == '.'
  {
  }

  /** The slot argument for any closing text that opens with a full stop. */
  lemma FragmentSlots(head: string, company: string, jobTitle: string, department: string, tail: string)
    requires |tail| > 0 && tail[0] == '.'
    ensures
      var p := head + Fragments(company, jobTitle, department) + tail;
      var atJob := |head| + |Clause(CompanyLead, company, "")|;
      var atDepartment := atJob + |Clause(JobLead, jobTitle, "")|;
      && atDepartment <= |p|
      && SlotShows(p[|head|..], CompanyLead, company, "")
      && SlotShows(p[atJob..], JobLead, jobTitle, "")
      && SlotShows(p[atDepartment..], DepartmentLead, department, DepartmentClose)
  {
    SlotsDistinct(jobTitle, department, tail);
    CompanySlot(head, company, jobTitle, department, tail);
    JobSlot(head, company, jobTitle, department, tail);
    DepartmentSlot(head, company, jobTitle, department, tail);
  }

  lemma CompanySlot(head: string, company: string, jobTitle: string, department: string, tail: string)
    requires !HasPrefix(Clause(JobLead, jobTitle, "") + Clause(DepartmentLead, department, DepartmentClose) + tail, CompanyLead)
    ensures SlotShows((head + Fragments(company, jobTitle, department) + tail)[|head|..], CompanyLead, company, "")
  {
    var c, j, d := Clause(CompanyLead, company, ""), Clause(JobLead, jobTitle, ""), Clause(DepartmentLead, department, DepartmentClose);
    Slot(CompanyLead, company, "", j + d + tail);
    assert Fragments(company, jobTitle, department) == c + j + d;
    PieceAt(head, c, j, d, tail);
  }

  lemma JobSlot(head: string, company: string, jobTitle: string, department: string, tail: string)
    requires !HasPrefix(Clause(DepartmentLead, department, DepartmentClose) + tail, JobLead)
    ensures
      var at := |head| + |Clause(CompanyLead, company, "")|;
      at <= |head + Fragments(company, jobTitle, department) + tail|
      && SlotShows((head + Fragments(company, jobTitle, department) + tail)[at..], JobLead, jobTitle, "")
  {
    var c, j, d := Clause(CompanyLead, company, ""), Clause(JobLead, jobTitle, ""), Clause(DepartmentLead, department, DepartmentClose);
    Slot(JobLead, jobTitle, "", d + tail);
    assert Fragments(company, jobTitle, department) == c + j + d;
    PieceAt(head, c, j, d, tail);
  }

  lemma DepartmentSlot(head: string, company: string, jobTitle: string, department: string, tail: string)
    requires !HasPrefix(tail, DepartmentLead)
    ensures
      var at := |head| + |Clause(CompanyLead, company, "")| + |Clause(JobLead, jobTitle, "")|;
      at <= |head + Fragments(company, jobTitle, department) + tail|
      && SlotShows((head + Fragments(company, jobTitle, department) + tail)[at..], DepartmentLead, department, DepartmentClose)
  {
    var c, j, d := Clause(CompanyLead, company, ""), Clause(JobLead, jobTitle, ""), Clause(DepartmentLead, department, DepartmentClose);
    Slot(DepartmentLead, department, DepartmentClose, tail);
    assert Fragments(company, jobTitle, department) == c + j + d;
    PieceAt(head, c, j, d, tail);
  }

  /** Where each piece of `head + (c + j + d) + tail` starts. */
  lemma PieceAt(head: string, c: string, j: string, d: string, tail: string)
    ensures (head + (c + j + d) + tail)[|head|..] == c + j + d + tail
    ensures (head + (c + j + d) + tail)[|head| + |c|..] == j + d + tail
    ensures (head + (c + j + d) + tail)[|head| + |c| + |j|..] == d + tail
  {
  }

  /** What follows each slot cannot be mistaken for that slot's fragment. */
  lemma SlotsDistinct(jobTitle: string, department: string, tail: string)
    requires |tail| > 0 && tail[0] == '.'
    ensures !HasPrefix(tail, DepartmentLead)
    ensures !HasPrefix(Clause(DepartmentLead, department, DepartmentClose) + tail, JobLead)
    ensures !HasPrefix(Clause(JobLead, jobTitle, "") + Clause(DepartmentLead, department, DepartmentClose) + tail,
      CompanyLead)
  {
    var d := Clause(DepartmentLead, department, DepartmentClose);
    var j := Clause(JobLead, jobTitle, "");
    assert (d + tail)[0] == (if department == "" then '.' else ' ');
    if jobTitle != "" {
      assert (j + d + tail)[0] == ',';
    } else if department != "" {
      assert (j + d + tail)[1] == 'i';
    } else {
      assert (j + d + tail)[0] == '.';
    }
  }

  /** The text at a slot starts with the fragment's lead exactly when the
      value is non-empty, and then with the whole fragment. */
  predicate SlotShows(rest: string, lead: string, value: string, close: string) {
    && (HasPrefix(rest, lead) <==> value != "")
    && (value != "" ==> HasPrefix(rest, lead + value + close))
  }

  /** An optional fragment is visible at its slot iff its value is non-empty,
      provided what follows cannot be mistaken for it. */
  lemma Slot(lead: string, value: string, close: string, after: string)
    requires !HasPrefix(after, lead)
    ensures SlotShows(Clause(lead, value, close) + after, lead, value, close)
  {
    if value != "" {
      var rest := Clause(lead, value, close) + after;
      assert rest == (lead + value + close) + after;
      assert rest[..|lead|] == lead;
    }
  }
}
