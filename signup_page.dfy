/** frontend/src/pages/SignupPage.jsx: the registration form's state, the
    subject picker (toggle, custom subject, search filter), the year options
    for a qualification, the branch and year reset when the qualification
    changes, and the status line after submitting. */
module SignupPage {
  import opened Strings
  import opened Seqs

  const SchoolYears: seq<string> := ["8th", "9th", "10th", "11th", "12th"]
  const CollegeYears: seq<string> := ["FY", "SY", "TY", "Final Year"]
  const OtherYears: seq<string> := ["Year 1", "Year 2", "Year 3", "Year 4", "Year 5"]

  /** `getYearOptions`: the college years for a bachelor's or master's
      qualification, the generic list for anything else. The school list is
      never offered. */
  function YearOptions(qualification: string): (r: seq<string>)
    ensures r == CollegeYears <==> Contains(qualification, "Bachelor") || Contains(qualification, "Master")
    ensures r == OtherYears <==> !(Contains(qualification, "Bachelor") || Contains(qualification, "Master"))
    ensures r != SchoolYears
  {
    if Contains(qualification, "Bachelor") || Contains(qualification, "Master") then CollegeYears else OtherYears
  }

  function IsNot(subject: string): string -> bool {
    (s: string) => s != subject
  }

  /** `handleSubjectSelect`'s updater: a chosen subject is dropped (every
      copy of it), any other is appended. */
  function Toggle(subjects: seq<string>, subject: string): (r: seq<string>)
    ensures subject in r <==> subject !in subjects
    ensures forall s | s != subject :: s in r <==> s in subjects
    ensures subject !in subjects ==> r == subjects + [subject]
  {
    if subject in subjects then Filter(subjects, IsNot(subject)) else subjects + [subject]
  }

  /** Toggling keeps the list free of duplicates, and toggling a new subject
      twice gives the list back. */
  lemma ToggleSpec(subjects: seq<string>, subject: string)
    ensures Unique(subjects) ==> Unique(Toggle(subjects, subject))
    ensures subject !in subjects ==> Toggle(Toggle(subjects, subject), subject) == subjects
  {
    if Unique(subjects) && subject in subjects {
      FilterUnique(subjects, IsNot(subject));
    }
    if subject !in subjects {
      FilterAppend(subjects, [subject], IsNot(subject));
      FilterAll(subjects, IsNot(subject));
      assert Filter([subject], IsNot(subject)) == [];
    }
  }

  lemma {:induction false} FilterUnique(s: seq<string>, keep: string -> bool)
    requires Unique(s)
    ensures Unique(Filter(s, keep))
  {
    if s != [] {
      assert Unique(s[1..]);
      FilterUnique(s[1..], keep);
      assert s[0] !in s[1..] by {
        forall k | 0 <= k < |s[1..]| ensures s[1..][k] != s[0] {
          assert s[1..][k] == s[k + 1];
        }
      }
    }
  }

  /** `filteredSubjects`: the subjects containing the search text, ignoring
      case. */
  function SubjectMatches(searchText: string): string -> bool {
    (subj: string) => Contains(Lower(subj), Lower(searchText))
  }

  function FilteredSubjects(all: seq<string>, searchText: string): (r: seq<string>)
    ensures forall k | 0 <= k < |r| :: r[k] in all && Contains(Lower(r[k]), Lower(searchText))
    ensures forall k | 0 <= k < |all| && Contains(Lower(all[k]), Lower(searchText)) :: all[k] in r
  {
    Filter(all, SubjectMatches(searchText))
  }

  /** An empty search lists every subject, in order. */
  lemma FilteredSubjectsEmpty(all: seq<string>)
    ensures FilteredSubjects(all, "") == all
  {
    forall k | 0 <= k < |all| ensures SubjectMatches("")(all[k]) {
      ContainsEmpty(Lower(all[k]));
    }
    FilterAll(all, SubjectMatches(""));
  }

  /** An entry of `qualifications.json`. */
  datatype Qualification = Qualification(name: string, branches: Option<seq<string>>)

  /** `qualificationsData.find(...)?.branches || []`. */
  function BranchesFor(data: seq<Qualification>, qualification: string): (r: seq<string>)
    ensures (forall k | 0 <= k < |data| :: data[k].name != qualification) ==> r == []
  {
    if data == [] then []
    else if data[0].name == qualification then (if data[0].branches.Some? then data[0].branches.value else [])
    else BranchesFor(data[1..], qualification)
  }

  /** `find` picks the first entry with that name, and `|| []` stands for
      its missing branches. */
  lemma {:induction false} BranchesForFirst(data: seq<Qualification>, qualification: string, k: nat)
    requires k < |data| && data[k].name == qualification
    requires forall j | 0 <= j < k :: data[j].name != qualification
    ensures BranchesFor(data, qualification) == (if data[k].branches.Some? then data[k].branches.value else [])
  {
    if k > 0 {
      BranchesForFirst(data[1..], qualification, k - 1);
    }
  }

  /** What the mount effect's two fetches gave: the parsed files, each None
      when it is not an array, or a thrown error. */
  datatype DataAnswer = DataLoaded(qualifications: Option<seq<Qualification>>, subjects: Option<seq<string>>) | DataThrew

  /** The outcome of the register request: success, or a thrown error with
      the reply's `message`, if any. */
  datatype SubmitAnswer = Registered | Refused(message: Option<string>)

  class Signup {
    var qualification: string
    var branch: string
    var year: string
    var subjects: seq<string>
    var qualificationsData: seq<Qualification>
    var branchOptions: seq<string>
    var allSubjects: seq<string>
    var statusMessage: string
    /** The route the page will move to, once its timer fires. */
    var redirect: Option<string>

    constructor ()
      ensures qualification == "" && branch == "" && year == "" && subjects == []
      ensures qualificationsData == [] && branchOptions == [] && allSubjects == []
      ensures statusMessage == "" && redirect == None
    {
      qualification := "";
      branch := "";
      year := "";
      subjects := [];
      qualificationsData := [];
      branchOptions := [];
      allSubjects := [];
      statusMessage := "";
      redirect := None;
    }

    /** The mount effect: both JSON files are fetched and parsed, and each
        list is stored only when it is an array. A failed fetch or parse
        stores neither. Storing the qualifications reruns the qualification
        effect, which depends on them. */
    method DataLoaded(answer: DataAnswer)
      modifies this
      ensures answer.DataLoaded? && answer.qualifications.Some? ==> (
        && qualificationsData == answer.qualifications.value
        && (qualification != "" ==> branchOptions == BranchesFor(qualificationsData, qualification) && branch == "" && year == "")
        && (qualification == "" ==> branchOptions == [] && branch == old(branch) && year == old(year)))
      ensures !(answer.DataLoaded? && answer.qualifications.Some?) ==> (
        && qualificationsData == old(qualificationsData) && branchOptions == old(branchOptions)
        && branch == old(branch) && year == old(year))
      ensures allSubjects == (if answer.DataLoaded? && answer.subjects.Some? then answer.subjects.value else old(allSubjects))
      ensures qualification == old(qualification) && subjects == old(subjects)
      ensures statusMessage == old(statusMessage) && redirect == old(redirect)
    {
      if answer.DataLoaded? {
        if answer.subjects.Some? {
          allSubjects := answer.subjects.value;
        }
        if answer.qualifications.Some? {
          qualificationsData := answer.qualifications.value;
          QualificationEffect();
        }
      }
    }

    /** The qualification effect: with a qualification, its branches are
        offered and branch and year are cleared; without one, no branches. */
    method QualificationEffect()
      modifies this
      ensures qualification != "" ==> branchOptions == BranchesFor(qualificationsData, qualification) && branch == "" && year == ""
      ensures qualification == "" ==> branchOptions == [] && branch == old(branch) && year == old(year)
      ensures qualification == old(qualification) && subjects == old(subjects) && allSubjects == old(allSubjects)
      ensures qualificationsData == old(qualificationsData)
      ensures statusMessage == old(statusMessage) && redirect == old(redirect)
    {
      if qualification != "" {
        branchOptions := BranchesFor(qualificationsData, qualification);
        branch := "";
        year := "";
      } else {
        branchOptions := [];
      }
    }

    /** `handleChange` on the qualification select; the effect reruns when
        the value changed. */
    method ChangeQualification(value: string)
      modifies this
      ensures qualification == value
      ensures value != old(qualification) && value != "" ==> (
        && branch == "" && year == ""
        && branchOptions == BranchesFor(qualificationsData, value))
      ensures value != old(qualification) && value == "" ==>
        branchOptions == [] && branch == old(branch) && year == old(year)
      ensures value == old(qualification) ==> branch == old(branch) && year == old(year) && branchOptions == old(branchOptions)
      ensures subjects == old(subjects) && allSubjects == old(allSubjects) && qualificationsData == old(qualificationsData)
      ensures statusMessage == old(statusMessage) && redirect == old(redirect)
    {
      if value != qualification {
        qualification := value;
        QualificationEffect();
      }
    }

    /** `handleSubjectSelect(subject)`. */
    method SelectSubject(subject: string)
      modifies this
      ensures subjects == Toggle(old(subjects), subject)
      ensures allSubjects == old(allSubjects) && qualification == old(qualification)
      ensures branch == old(branch) && year == old(year) && branchOptions == old(branchOptions)
      ensures qualificationsData == old(qualificationsData) && statusMessage == old(statusMessage) && redirect == old(redirect)
    {
      subjects := Toggle(subjects, subject);
    }

    /** `handleCustomSubject`: `custom` is what the prompt returned (None when
        cancelled). Only a new, non-empty name is added to the list and then
        selected. */
    method CustomSubject(custom: Option<string>)
      modifies this
      ensures Truthy(custom) && custom.value !in old(allSubjects) ==>
        allSubjects == old(allSubjects) + [custom.value] && subjects == Toggle(old(subjects), custom.value)
      ensures !(Truthy(custom) && custom.value !in old(allSubjects)) ==>
        allSubjects == old(allSubjects) && subjects == old(subjects)
      ensures qualification == old(qualification)
      ensures branch == old(branch) && year == old(year) && branchOptions == old(branchOptions)
      ensures qualificationsData == old(qualificationsData) && statusMessage == old(statusMessage) && redirect == old(redirect)
    {
      if Truthy(custom) && custom.value !in allSubjects {
        allSubjects := allSubjects + [custom.value];
        SelectSubject(custom.value);
      }
    }

    /** `handleSubmit`'s status line, and the redirect to the login page
        after a success. */
    method Submitted(answer: SubmitAnswer)
      modifies this
      ensures answer.Registered? ==>
        statusMessage == "✅ Registration successful! Redirecting to login..." && redirect == Some("/login")
      ensures answer.Refused? ==> (
        && redirect == old(redirect)
        && statusMessage == "❌ " + (if Truthy(answer.message) then answer.message.value else "Registration failed."))
      ensures subjects == old(subjects) && allSubjects == old(allSubjects)
      ensures qualification == old(qualification) && branch == old(branch) && year == old(year)
      ensures branchOptions == old(branchOptions) && qualificationsData == old(qualificationsData)
    {
      if answer.Registered? {
        statusMessage := "✅ Registration successful! Redirecting to login...";
        redirect := Some("/login");
      } else {
        statusMessage := "❌ " + (if Truthy(answer.message) then answer.message.value else "Registration failed.");
      }
    }
  }
}
