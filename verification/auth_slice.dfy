/** The auth slice of the Redux store: the signed-in user, the two tokens, the
    authentication, loading and initialisation flags, the last error and the last
    message. Every reducer assigns fields of the state in place. */
module AuthSlice {
  import opened Common

  const LoginSucceeded := "Đăng nhập thành công"
  const RegisterSucceeded := "Đăng ký thành công"
  const RegisterFailed := "Đăng ký thất bại"
  const UserDataFailed := "Không thể lấy thông tin người dùng"
  const ResetEmailSent := "Email đặt lại mật khẩu đã được gửi"
  const ResetEmailFailed := "Gửi email thất bại"
  const PasswordResetSucceeded := "Đặt lại mật khẩu thành công"
  const PasswordResetFailed := "Đặt lại mật khẩu thất bại"
  const EmailVerified := "Xác thực email thành công"
  const EmailVerificationFailed := "Xác thực email thất bại"
  const NoRefreshToken := "No refresh token"

  /** `action.payload?.error || fallback`: the payload's `error` field when it is truthy,
      otherwise the fallback text. */
  function ErrorOrDefault(payload: JsValue, fallback: string): (r: JsValue)
    requires fallback != ""
    ensures Truthy(r)
    ensures !Nullish(payload) && Truthy(GetProp(payload, "error").value) ==> r == GetProp(payload, "error").value
    ensures Nullish(payload) || !Truthy(GetProp(payload, "error").value) ==> r == Str(fallback)
  {
    var e := if Nullish(payload) then Undefined else GetProp(payload, "error").value;
    if Truthy(e) then e else Str(fallback)
  }

  /** The `refreshToken` thunk: without a truthy stored refresh token it rejects with
      "No refresh token" before any request is made; otherwise the request's outcome
      decides. `call` is the abstract request: `Ok(data)` or `Err(message)`. */
  function RefreshTokenThunk(storedRefreshToken: JsValue, call: Result<JsValue, string>): (r: Result<JsValue, string>)
    ensures !Truthy(storedRefreshToken) ==> r == Err(NoRefreshToken)
    ensures Truthy(storedRefreshToken) ==> r == call
  {
    if !Truthy(storedRefreshToken) then Err(NoRefreshToken) else call
  }

  class AuthState {
    var user: JsValue
    var accessToken: JsValue
    var refreshToken: JsValue
    var isAuthenticated: bool
    var loading: bool
    var error: JsValue
    var initialized: bool
    var message: JsValue

    /** `initialState`. */
    constructor ()
      ensures user == Null && accessToken == Null && refreshToken == Null
      ensures !isAuthenticated && !loading && error == Null && !initialized && message == Null
    {
      user := Null;
      accessToken := Null;
      refreshToken := Null;
      isAuthenticated := false;
      loading := false;
      error := Null;
      initialized := false;
      message := Null;
    }

    /** `logout`: the user, both tokens and the message are cleared; the state is
        initialised and unauthenticated; `error` and `loading` are left as they are. */
    method Logout()
      modifies this`user, this`accessToken, this`refreshToken, this`isAuthenticated, this`message, this`initialized
      ensures user == Null && accessToken == Null && refreshToken == Null && message == Null
      ensures !isAuthenticated && initialized
    {
      user := Null;
      accessToken := Null;
      refreshToken := Null;
      isAuthenticated := false;
      message := Null;
      initialized := true;
    }

    method ClearError()
      modifies this`error
      ensures error == Null
    {
      error := Null;
    }

    method ClearMessage()
      modifies this`message
      ensures message == Null
    {
      message := Null;
    }

    /** `setToken`: both tokens come from the payload's snake-case fields and the state
        is authenticated, whatever their values. Reading a field of a null or undefined
        payload throws, and the store keeps its state. */
    method SetToken(payload: JsValue) returns (threw: bool)
      modifies this`accessToken, this`refreshToken, this`isAuthenticated
      ensures threw <==> Nullish(payload)
      ensures threw ==> unchanged(this)
      ensures !threw ==> accessToken == GetProp(payload, "access_token").value
      ensures !threw ==> refreshToken == GetProp(payload, "refresh_token").value
      ensures !threw ==> isAuthenticated
    {
      if Nullish(payload) {
        return true;
      }
      threw := false;
      accessToken := GetProp(payload, "access_token").value;
      refreshToken := GetProp(payload, "refresh_token").value;
      isAuthenticated := true;
    }

    method SetInitialized(value: bool)
      modifies this`initialized
      ensures initialized == value
    {
      initialized := value;
    }

    // ---------------------------------------------------------- thunk cases

    /** The pending case of login, register, forgotPassword, resetPassword and
        verifyEmail: loading starts and the error is cleared. */
    method PendingClearingError()
      modifies this`loading, this`error
      ensures loading && error == Null
    {
      loading := true;
      error := Null;
    }

    /** The pending case of refreshToken and getUserData: loading starts and the error is
        kept. */
    method PendingKeepingError()
      modifies this`loading
      ensures loading
    {
      loading := true;
    }

    /** `login.fulfilled`: authenticated and initialised, with user and tokens from the
        payload's camel-case fields and the success message. A null or undefined
        payload throws, and the store keeps its state. */
    method LoginFulfilled(payload: JsValue) returns (threw: bool)
      modifies this`loading, this`isAuthenticated, this`user, this`accessToken, this`refreshToken,
               this`message, this`initialized
      ensures threw <==> Nullish(payload)
      ensures threw ==> unchanged(this)
      ensures !threw ==> !loading && isAuthenticated && initialized
      ensures !threw ==> user == GetProp(payload, "user").value
      ensures !threw ==> accessToken == GetProp(payload, "accessToken").value
      ensures !threw ==> refreshToken == GetProp(payload, "refreshToken").value
      ensures !threw ==> message == Str(LoginSucceeded)
    {
      if Nullish(payload) {
        return true;
      }
      threw := false;
      loading := false;
      isAuthenticated := true;
      user := GetProp(payload, "user").value;
      accessToken := GetProp(payload, "accessToken").value;
      refreshToken := GetProp(payload, "refreshToken").value;
      message := Str(LoginSucceeded);
      initialized := true;
    }

    /** `login.rejected`: unauthenticated but initialised, with the rejection value as
        the error; user and tokens stay. */
    method LoginRejected(payload: JsValue)
      modifies this`loading, this`isAuthenticated, this`initialized, this`error
      ensures !loading && !isAuthenticated && initialized && error == payload
    {
      loading := false;
      isAuthenticated := false;
      initialized := true;
      error := payload;
    }

    /** `register.fulfilled`: only the message changes; authentication does not. */
    method RegisterFulfilled()
      modifies this`loading, this`message
      ensures !loading && message == Str(RegisterSucceeded)
    {
      loading := false;
      message := Str(RegisterSucceeded);
    }

    /** The rejected case of register, getUserData, forgotPassword, resetPassword and
        verifyEmail: the payload's error text, or the case's own default. */
    method RejectedWithDefault(payload: JsValue, fallback: string)
      requires fallback != ""
      modifies this`loading, this`error
      ensures !loading && error == ErrorOrDefault(payload, fallback)
    {
      loading := false;
      error := ErrorOrDefault(payload, fallback);
    }

    /** `refreshToken.fulfilled`: new tokens, authenticated, initialised, no error. A
        null or undefined payload throws, and the store keeps its state. */
    method RefreshTokenFulfilled(payload: JsValue) returns (threw: bool)
      modifies this`loading, this`accessToken, this`refreshToken, this`isAuthenticated, this`initialized, this`error
      ensures threw <==> Nullish(payload)
      ensures threw ==> unchanged(this)
      ensures !threw ==> !loading && isAuthenticated && initialized && error == Null
      ensures !threw ==> accessToken == GetProp(payload, "accessToken").value
      ensures !threw ==> refreshToken == GetProp(payload, "refreshToken").value
    {
      if Nullish(payload) {
        return true;
      }
      threw := false;
      loading := false;
      accessToken := GetProp(payload, "accessToken").value;
      refreshToken := GetProp(payload, "refreshToken").value;
      isAuthenticated := true;
      initialized := true;
      error := Null;
    }

    /** `refreshToken.rejected`: unauthenticated and initialised; the tokens stay. */
    method RefreshTokenRejected(payload: JsValue)
      modifies this`loading, this`isAuthenticated, this`initialized, this`error
      ensures !loading && !isAuthenticated && initialized && error == payload
    {
      loading := false;
      isAuthenticated := false;
      initialized := true;
      error := payload;
    }

    /** `getUserData.fulfilled`: only the user changes. A null or undefined payload
        throws, and the store keeps its state. */
    method GetUserDataFulfilled(payload: JsValue) returns (threw: bool)
      modifies this`loading, this`user
      ensures threw <==> Nullish(payload)
      ensures threw ==> unchanged(this)
      ensures !threw ==> !loading && user == GetProp(payload, "user").value
    {
      if Nullish(payload) {
        return true;
      }
      threw := false;
      loading := false;
      user := GetProp(payload, "user").value;
    }

    /** The fulfilled case of forgotPassword, resetPassword and verifyEmail: only the
        message changes. */
    method FulfilledWithMessage(text: string)
      modifies this`loading, this`message
      ensures !loading && message == Str(text)
    {
      loading := false;
      message := Str(text);
    }
  }

  /** Logging out ends any authenticated session, and a later successful refresh
      authenticates again. The refresh after logout is the one the interceptor runs when
      a request comes back 401. A refresh whose payload is null or undefined throws in
      its reducer and leaves the logged-out, loading state. */
  method LogoutThenRefresh(s: AuthState, payload: JsValue)
    modifies s
    ensures s.user == Null && s.message == Null && s.initialized
    ensures !Nullish(payload) ==> s.isAuthenticated && !s.loading && s.error == Null
    ensures !Nullish(payload) ==> s.accessToken == GetProp(payload, "accessToken").value
    ensures Nullish(payload) ==> !s.isAuthenticated && s.loading && s.accessToken == Null
  {
    s.Logout();
    s.PendingKeepingError();
    var threw := s.RefreshTokenFulfilled(payload);
  }
}
