/**
 * The error taxonomy: every APIException subclass the core raises, with its HTTP status,
 * machine-readable code and message, plus the framework and database errors the core
 * can let escape.
 */
module Errors {

  const BadRequest: int := 400
  const Unauthorized: int := 401
  const Forbidden: int := 403
  const NotFound: int := 404
  const Conflict: int := 409
  const InternalServerError: int := 500

  datatype Error =
    // order/exceptions.py
    | ShippingInfoDoesNotExists
    | OrderDoesNotExists
    | DiscountDoesNotExists
    // product/exceptions.py
    | ProductDoesNotExists
    | ProductOutOfStock
    // exceptions/product.py
    | ProductDoesNotExist
    // cart/exceptions.py
    | CartItemDoesNotExists
    | CartDoesNotExists
    // account/exceptions.py (InvalidOrExpiredToken is also declared, identically, in router/authenticate.py)
    | EmailAlreadyExists
    | EmailNotExists
    | EmailRequired
    | PasswordRequired
    | BackendURLNotConfigured
    | InvalidOrExpiredToken
    | UserNotActive
    | EmailOrPasswordInvalid
    | GoogleClientIDNotConfigured
    | OldPasswordInvalid
    // not APIExceptions: a database constraint violation, an uncaught Model.DoesNotExist,
    // Python's ValueError, TypeError and ImportError, and ninja's HttpError
    | IntegrityError
    | ObjectDoesNotExist
    | ValueError(reason: string)
    | TypeError(reason: string)
    | ImportError(reason: string)
    | HttpError(status: int, detail: string)
  {
    predicate IsApiException() {
      !(IntegrityError? || ObjectDoesNotExist? || ValueError? || TypeError? || ImportError? || HttpError?)
    }

    /** The class attribute `error_code`. */
    function ErrorCode(): (c: int)
      requires IsApiException()
      ensures c in {BadRequest, Forbidden, NotFound, Conflict, InternalServerError}
    {
      match this
      case ShippingInfoDoesNotExists | OrderDoesNotExists | DiscountDoesNotExists
        | ProductDoesNotExists | ProductOutOfStock | CartItemDoesNotExists
        | CartDoesNotExists | EmailRequired | PasswordRequired => BadRequest
      case ProductDoesNotExist => NotFound
      case EmailAlreadyExists | EmailNotExists => Conflict
      case InvalidOrExpiredToken | UserNotActive | EmailOrPasswordInvalid | OldPasswordInvalid => Forbidden
      case BackendURLNotConfigured | GoogleClientIDNotConfigured => InternalServerError
    }

    /** The class attribute `message_code`. */
    function MessageCode(): string
      requires IsApiException()
    {
      match this
      case ShippingInfoDoesNotExists => "SHIPPING_INFO_DOES_NOT_EXISTS"
      case OrderDoesNotExists => "ORDER_DOES_NOT_EXISTS"
      case DiscountDoesNotExists => "DISCOUNT_DOES_NOT_EXISTS"
      case ProductDoesNotExists => "PRODUCT_DOES_NOT_EXISTS"
      case ProductOutOfStock => "PRODUCT_OUT_OF_STOCK"
      case ProductDoesNotExist => "PRODUCT_DOES_NOT_EXIST"
      case CartItemDoesNotExists => "CART_ITEM_DOES_NOT_EXISTS"
      case CartDoesNotExists => "CART_DOES_NOT_EXISTS"
      case EmailAlreadyExists => "EMAIL_ALREADY_EXISTS"
      case EmailNotExists => "EMAIL_NOT_EXISTS"
      case EmailRequired => "EMAIL_REQUIRED"
      case PasswordRequired => "PASSWORD_REQUIRED"
      case BackendURLNotConfigured => "BACKEND_URL_NOT_CONFIGURED"
      case InvalidOrExpiredToken => "INVALID_OR_EXPIRED_TOKEN"
      case UserNotActive => "USER_NOT_ACTIVE"
      case EmailOrPasswordInvalid => "INVALID_EMAIL_OR_PASSWORD"
      case GoogleClientIDNotConfigured => "GOOGLE_CLIENT_ID_NOT_CONFIGURED"
      case OldPasswordInvalid => "OLD_PASSWORD_INVALID"
    }

    /** The class attribute `message`. */
    function Message(): string
      requires IsApiException()
    {
      match this
      case ShippingInfoDoesNotExists => "Thông tin giao hàng không tồn tại"
      case OrderDoesNotExists => "Đơn hàng không tồn tại"
      case DiscountDoesNotExists => "Mã giảm giá không tồn tại"
      case ProductDoesNotExists => "Sản phẩm không tồn tại."
      case ProductOutOfStock => "Sản phẩm không còn đủ số lượng trong kho."
      case ProductDoesNotExist => "The requested product does not exist"
      case CartItemDoesNotExists => "Sản phẩm trong tồn tại trong giỏ hàng"
      case CartDoesNotExists => "Giỏ hàng không tồn tại"
      case EmailAlreadyExists => "Email đã tồn tại"
      case EmailNotExists => "Email không tồn tại"
      case EmailRequired => "Email không được để trống"
      case PasswordRequired => "Password không được để trống"
      case BackendURLNotConfigured => "BACKEND_URL chưa được cấu hình trong environment"
      case InvalidOrExpiredToken => "Invalid or expired token"
      case UserNotActive => "Tài khoản chưa được xác thực email"
      case EmailOrPasswordInvalid => "Invalid email or password"
      case GoogleClientIDNotConfigured => "Google Client ID is not configured"
      case OldPasswordInvalid => "Mật khẩu cũ không đúng"
    }
  }

  datatype Result<+T> = Ok(value: T) | Err(error: Error)

  /** Pass or a raised error, for operations that return nothing. */
  datatype Outcome = Pass | Fail(error: Error)
}
