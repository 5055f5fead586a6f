/** `getDisplayName`: the label shown for the signed-in user. */
module DisplayName {
  import opened IdeaModel

  /** The `user_metadata` bag; only `display_name` is read. */
  datatype Metadata = Metadata(displayName: Option<string>)

  /** The part of an authenticated user the label is built from. */
  datatype User = User(email: Option<string>, metadata: Option<Metadata>)

  /** The label for a user who has neither a display name nor an e-mail. */
  const Unnamed: string := "未命名使用者"

  /** A string value that JavaScript's `||` treats as true: present and non-empty. */
  predicate Truthy(s: Option<string>) {
    s.Some? && s.value != ""
  }

  /** The `display_name` field, absent when there is no metadata at all. */
  function DisplayNameField(u: User): Option<string> {
    if u.metadata.Some? then u.metadata.value.displayName else None
  }

  /** `getDisplayName(user)`: empty when nobody is signed in, otherwise the
      first truthy of display name and e-mail, falling back to `Unnamed`. */
  function GetDisplayName(user: Option<User>): (r: string)
    ensures user.None? <==> r == ""
    ensures user.Some? && Truthy(DisplayNameField(user.value)) ==>
              r == DisplayNameField(user.value).value
    ensures user.Some? && !Truthy(DisplayNameField(user.value)) && Truthy(user.value.email) ==>
              r == user.value.email.value
    ensures user.Some? && !Truthy(DisplayNameField(user.value)) && !Truthy(user.value.email) ==>
              r == Unnamed
  {
    match user
    case None => ""
    case Some(u) =>
      var name := DisplayNameField(u);
      if Truthy(name) then name.value
      else if Truthy(u.email) then u.email.value
      else Unnamed
  }
}
