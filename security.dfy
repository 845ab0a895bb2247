/** The user a Symfony security token carries, as the core inspects it. */
module Security {
  import Entities

  /** No token, a token whose user is not an `App\Entity\User`, or one
      whose user is. */
  datatype Principal = NoToken | OtherUser | AppUser(user: Entities.User) {
    /** `$user instanceof User` */
    predicate IsAppUser() {
      AppUser?
    }
  }
}
