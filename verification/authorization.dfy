/** The display-name allow-list of shared/constants.ts. */
module Authorization {
  import opened Wrappers
  import opened Text

  /** AUTHORIZED_MEMBERS. */
  const AuthorizedMembers: seq<string> := ["Ismael", "Aidan"]

  /** The form in which names are compared: `name.trim().toLowerCase()`. */
  function Canonical(name: string): string {
    ToLower(Trim(name))
  }

  /** Some member, lowercased, equals the canonical form of `name`. */
  predicate NamesMember(name: string) {
    exists i :: 0 <= i < |AuthorizedMembers| && ToLower(AuthorizedMembers[i]) == Canonical(name)
  }

  /**
   * isAuthorizedUser: `undefined`, `null` and `""` are rejected (`!username`);
   * any other name is accepted when it names a member.
   */
  function IsAuthorizedUser(username: Option<string>): (r: bool)
    ensures username == None || username == Some("") ==> !r
    ensures r ==> username.Some? && NamesMember(username.value)
  {
    match username
    case None => false
    case Some(name) => name != "" && NamesMember(name)
  }

  /** The members' lowercase forms, spelled out. */
  lemma LowerMembers()
    ensures ToLower(AuthorizedMembers[0]) == "ismael"
    ensures ToLower(AuthorizedMembers[1]) == "aidan"
  {
    var a := ToLower(AuthorizedMembers[0]);
    assert a[0] == 'i' && a[1] == 's' && a[2] == 'm' && a[3] == 'a' && a[4] == 'e' && a[5] == 'l';
    var b := ToLower(AuthorizedMembers[1]);
    assert b[0] == 'a' && b[1] == 'i' && b[2] == 'd' && b[3] == 'a' && b[4] == 'n';
  }

  /** A blank name names no member: every member's lowercase form is non-empty. */
  lemma BlankNamesNoMember(name: string)
    requires IsBlank(name)
    ensures !NamesMember(name)
  {
    assert Canonical(name) == "";
    LowerMembers();
    forall i | 0 <= i < |AuthorizedMembers|
      ensures ToLower(AuthorizedMembers[i]) != Canonical(name)
    {
      assert i == 0 || i == 1;
    }
  }

  /** A present name is accepted exactly when, trimmed and lowercased, it reads "ismael" or "aidan". */
  lemma AuthorizedIff(name: string)
    ensures IsAuthorizedUser(Some(name)) <==> Canonical(name) in {"ismael", "aidan"}
  {
    NamesMemberIff(name);
    if name == "" {
      assert Trim(name) == "";
    }
  }

  lemma NamesMemberIff(name: string)
    ensures NamesMember(name) <==> Canonical(name) == "ismael" || Canonical(name) == "aidan"
  {
    LowerMembers();
    if Canonical(name) == "ismael" {
      assert ToLower(AuthorizedMembers[0]) == Canonical(name);
    } else if Canonical(name) == "aidan" {
      assert ToLower(AuthorizedMembers[1]) == Canonical(name);
    } else {
      forall i | 0 <= i < |AuthorizedMembers|
        ensures ToLower(AuthorizedMembers[i]) != Canonical(name)
      {
        assert i == 0 || i == 1;
      }
    }
  }

  /** Leading and trailing whitespace never change the verdict. */
  lemma {:induction false} PaddingIgnored(p: string, name: string, q: string)
    requires AllWhitespace(p) && AllWhitespace(q)
    ensures IsAuthorizedUser(Some(p + name + q)) == IsAuthorizedUser(Some(name))
  {
    var padded := p + name + q;
    TrimIgnoresPadding(p, name, q);
    assert Canonical(padded) == Canonical(name);
    if name == "" {
      assert IsBlank(name);
      BlankNamesNoMember(name);
    }
  }

  /** Letter case never changes the verdict. */
  lemma CaseIgnored(name: string, other: string)
    requires ToLower(name) == ToLower(other)
    ensures IsAuthorizedUser(Some(name)) == IsAuthorizedUser(Some(other))
  {
    TrimLower(name);
    TrimLower(other);
    assert Canonical(name) == Canonical(other);
  }

  /** A name made only of whitespace is rejected. */
  lemma WhitespaceOnlyRejected(name: string)
    requires AllWhitespace(name)
    ensures !IsAuthorizedUser(Some(name))
  {
    BlankIffAllWhitespace(name);
    BlankNamesNoMember(name);
  }
}
