/** The messages the validation rule lists report. Chains carry a message
    by name; `MessageText` gives the words the API sends. */
module Messages {
  datatype Message =
    | FirstnameRequired | FirstnameNotAlpha | FirstnameLength
    | LastnameRequired | LastnameNotAlpha | LastnameLength
    | UsernameRequired | UsernameNotAlphanumeric | UsernameLength
    | EmailRequired | EmailInvalid
    | PasswordRequired | PasswordTooShort | PasswordWeak
    | RoleInvalid | BioTooLong | TitleTooLong | ExperienceOutOfRange
    | SocialLinksNotObject | SocialLinkKeyInvalid(key: string)
    | SigninEmailInvalid | SigninPasswordRequired | UsernameOrEmailRequired
    | BioExceeds | TitleExceeds | ExperienceExceeds
    | CurrentPasswordRequired | NewPasswordRequired | NewPasswordWeak
    | ConfirmPasswordRequired | PasswordsDiffer

  function MessageText(m: Message): string
  {
    match m
    case FirstnameRequired => "firstname is required"
    case FirstnameNotAlpha => "Firstname must contain only letters, spaces or hyphens"
    case FirstnameLength => "First name must be between 3 and 30 characters"
    case LastnameRequired => "Last name is required"
    case LastnameNotAlpha => "Lastname must contain only letters, spaces or hyphens"
    case LastnameLength => "lastname must be between 3 and 30 characters"
    case UsernameRequired => "User name is required"
    case UsernameNotAlphanumeric => "username must be alphanumeric"
    case UsernameLength => "username must be between 3 and 15 characters"
    case EmailRequired => "Email is required"
    case EmailInvalid => "Invalid email address"
    case PasswordRequired => "Password is required"
    case PasswordTooShort => "Password must be at least 9 characters long"
    case PasswordWeak => "Password must contain at least one letter and one number, and be at least 9 characters long"
    case RoleInvalid => "Role must be either student, instructor, or admin"
    case BioTooLong => "Bio must be less than 500 characters"
    case TitleTooLong => "Title must be less than 100 characters"
    case ExperienceOutOfRange => "Experience must be a positive number between 0 and 100"
    case SocialLinksNotObject => "Social links must be an object"
    case SocialLinkKeyInvalid(key) => "Invalid social link key: " + key
    case SigninEmailInvalid => "Please enter a valid email address"
    case SigninPasswordRequired => "password is required"
    case UsernameOrEmailRequired => "Please provide either a username or email"
    case BioExceeds => "Bio cannot exceed 500 characters"
    case TitleExceeds => "Title cannot exceed 100 characters"
    case ExperienceExceeds => "Experience cannot exceed 100 characters"
    case CurrentPasswordRequired => "Current Password is required"
    case NewPasswordRequired => "New Password is required"
    case NewPasswordWeak => "New Password must contain at least one letter and one number, and be at least 9 characters long"
    case ConfirmPasswordRequired => "Confirm password is required"
    case PasswordsDiffer => "Password do not match"
  }
}
