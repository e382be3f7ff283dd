/** The entities of the marketplace (types.ts), as values. */
module Types {

  datatype Option<+T> = None | Some(value: T)

  datatype UserRole = GUEST | BUYER | SELLER

  /** The steps of the signup wizard, in the order the screens appear. */
  datatype AuthStep = EMAIL_PASSWORD | USERNAME | ROLE_CHECK | ADMIN_INPUT | COMPLETE

  /** The signed-in identity; `avatar` is optional. */
  datatype User = User(email: string, username: string, role: UserRole, avatar: Option<string>)

  /**
   * A listing as the dashboard holds it. `price` keeps the backend's raw text:
   * the number it parses to is a floating-point value, which this model does not carry.
   */
  datatype Product = Product(
    id: string,
    sellerName: string,
    title: string,
    description: string,
    price: string,
    images: seq<string>,
    videoUrl: Option<string>)

  /** The user record before anyone has signed in (App.tsx:27). */
  const GUEST_USER: User := User("", "", GUEST, None)

  /** JavaScript truthiness of an optional string: present and non-empty. */
  predicate Truthy(s: Option<string>) {
    s.Some? && s.value != ""
  }
}
