/** The ProviderApplication record (backend/models/providerApplication.js). */
module ApplicationModel {
  import opened Wrappers

  datatype AppStatus = AppPending | AppApproved | AppRejected

  /** The free-text fields (phone, city, skills, experience, bio) play no part in any rule. */
  datatype Application = Application(user: Id, status: AppStatus)
}
