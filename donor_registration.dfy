/** The donor registration form: its fields, the organ checklist and the
    consent gate of the submit handler. The toast is returned as a value. */
module DonorRegistration {

  const OrganOptions: seq<string> :=
    ["Heart", "Lungs", "Liver", "Kidneys", "Pancreas", "Intestines", "Corneas", "Skin", "Bone", "Heart Valves"]

  datatype DonorForm = DonorForm(
    fullName: string,
    email: string,
    phone: string,
    dateOfBirth: string,
    bloodGroup: string,
    organs: seq<string>,
    consent: bool)

  const InitialForm := DonorForm("", "", "", "", "", [], false)

  /** `organs.filter(o => o !== organ)`: every other entry, in order. */
  function Without(organs: seq<string>, organ: string): (r: seq<string>)
    ensures |r| <= |organs|
    ensures forall o :: o in r <==> o in organs && o != organ
  {
    if organs == [] then []
    else if organs[0] == organ then Without(organs[1..], organ)
    else [organs[0]] + Without(organs[1..], organ)
  }

  /** Filtering out an organ that is not there changes nothing. */
  lemma {:induction false} WithoutAbsent(organs: seq<string>, organ: string)
    requires organ !in organs
    ensures Without(organs, organ) == organs
  {
    if organs != [] {
      WithoutAbsent(organs[1..], organ);
    }
  }

  /** Filtering distributes over concatenation. */
  lemma {:induction false} WithoutAppend(a: seq<string>, b: seq<string>, organ: string)
    ensures Without(a + b, organ) == Without(a, organ) + Without(b, organ)
  {
    if a == [] {
      assert a + b == b;
    } else {
      assert (a + b)[1..] == a[1..] + b;
      WithoutAppend(a[1..], b, organ);
    }
  }

  /** `toggleOrgan`: removes the organ when it is selected, appends it
      otherwise. */
  function ToggledOrgans(organs: seq<string>, organ: string): (r: seq<string>)
    ensures organ in r <==> organ !in organs
    ensures forall o :: o != organ ==> (o in r <==> o in organs)
  {
    if organ in organs then Without(organs, organ) else organs + [organ]
  }

  predicate NoDuplicates(s: seq<string>) {
    forall i, j :: 0 <= i < j < |s| ==> s[i] != s[j]
  }

  lemma {:induction false} WithoutKeepsNoDuplicates(organs: seq<string>, organ: string)
    requires NoDuplicates(organs)
    ensures NoDuplicates(Without(organs, organ))
  {
    if organs != [] {
      WithoutKeepsNoDuplicates(organs[1..], organ);
      if organs[0] != organ {
        var rest := Without(organs[1..], organ);
        assert organs[0] !in organs[1..];
        assert organs[0] !in rest;
        var r := [organs[0]] + rest;
        forall i, j | 0 <= i < j < |r|
          ensures r[i] != r[j]
        {
          if i == 0 {
            assert r[j] == rest[j - 1];
          } else {
            assert r[i] == rest[i - 1] && r[j] == rest[j - 1];
          }
        }
      }
    }
  }

  /** The selection never lists an organ twice. */
  lemma ToggleKeepsNoDuplicates(organs: seq<string>, organ: string)
    requires NoDuplicates(organs)
    ensures NoDuplicates(ToggledOrgans(organs, organ))
  {
    if organ in organs {
      WithoutKeepsNoDuplicates(organs, organ);
    }
  }

  /** Selecting and then deselecting an organ restores the selection. */
  lemma ToggleAbsentTwice(organs: seq<string>, organ: string)
    requires organ !in organs
    ensures ToggledOrgans(ToggledOrgans(organs, organ), organ) == organs
  {
    WithoutAppend(organs, [organ], organ);
    WithoutAbsent(organs, organ);
  }

  /** Deselecting and reselecting an organ moves it to the end. */
  lemma ToggleSelectedTwice(organs: seq<string>, organ: string)
    requires organ in organs
    ensures ToggledOrgans(ToggledOrgans(organs, organ), organ) == Without(organs, organ) + [organ]
  {
  }

  datatype Toast = Toast(title: string, description: string, destructive: bool)

  const ConsentRequired := Toast("Consent Required", "Please provide your consent to proceed with registration.", true)
  const Submitted := Toast("Registration Submitted", "Thank you for registering as an organ donor. Your information has been securely saved.", false)

  /** The text inputs and the blood group select. */
  datatype TextField = FullName | Email | Phone | DateOfBirth | BloodGroup

  class DonorRegistrationPage {
    var formData: DonorForm

    /** Only offered organs are selected, each at most once. */
    ghost predicate Valid()
      reads this
    {
      && NoDuplicates(formData.organs)
      && forall o :: o in formData.organs ==> o in OrganOptions
    }

    constructor ()
      ensures Valid() && formData == InitialForm
    {
      formData := InitialForm;
    }

    /** A click on the checklist entry of `organ`. */
    method ToggleOrgan(organ: string)
      requires Valid() && organ in OrganOptions
      modifies this
      ensures Valid()
      ensures formData == old(formData).(organs := ToggledOrgans(old(formData.organs), organ))
    {
      ToggleKeepsNoDuplicates(formData.organs, organ);
      formData := formData.(organs := ToggledOrgans(formData.organs, organ));
    }

    /** The `onChange` of a text input or the blood group select. */
    method SetField(field: TextField, value: string)
      requires Valid()
      modifies this
      ensures Valid()
      ensures field == FullName ==> formData == old(formData).(fullName := value)
      ensures field == Email ==> formData == old(formData).(email := value)
      ensures field == Phone ==> formData == old(formData).(phone := value)
      ensures field == DateOfBirth ==> formData == old(formData).(dateOfBirth := value)
      ensures field == BloodGroup ==> formData == old(formData).(bloodGroup := value)
    {
      match field {
        case FullName => formData := formData.(fullName := value);
        case Email => formData := formData.(email := value);
        case Phone => formData := formData.(phone := value);
        case DateOfBirth => formData := formData.(dateOfBirth := value);
        case BloodGroup => formData := formData.(bloodGroup := value);
      }
    }

    /** The consent checkbox. */
    method SetConsent(checked: bool)
      requires Valid()
      modifies this
      ensures Valid() && formData == old(formData).(consent := checked)
    {
      formData := formData.(consent := checked);
    }

    /** `handleSubmit`: consent is the only check; the toast it raises. */
    method HandleSubmit() returns (toast: Toast)
      ensures toast.destructive <==> !formData.consent
      ensures !formData.consent ==> toast.title == "Consent Required"
      ensures formData.consent ==> toast.title == "Registration Submitted"
    {
      if !formData.consent {
        return ConsentRequired;
      }
      return Submitted;
    }
  }
}
