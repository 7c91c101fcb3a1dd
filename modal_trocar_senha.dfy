/** The change-password dialog: the checks run before the new password is
    handed to the authentication provider. */
module ModalTrocarSenha {
  import opened Wrappers

  const ErroTamanho: string := "A nova senha deve ter pelo menos 6 caracteres"
  const ErroConferem: string := "As senhas não conferem"

  /** The minimum length of a new password. */
  const TamanhoMinimo: nat := 6

  datatype Validacao = Valida | CurtaDemais | NaoConferem

  /** The validation sequence of `handleSubmit`: length first, then confirmation.
      The current password takes no part in it; only the form's own check
      (`FormularioValido`) looks at it. */
  function Validar(novaSenha: string, confirmarSenha: string): (v: Validacao)
    ensures v == Valida <==> |novaSenha| >= TamanhoMinimo && novaSenha == confirmarSenha
    ensures v == CurtaDemais <==> |novaSenha| < TamanhoMinimo
    ensures v == NaoConferem <==> |novaSenha| >= TamanhoMinimo && novaSenha != confirmarSenha
  {
    if |novaSenha| < TamanhoMinimo then CurtaDemais
    else if novaSenha != confirmarSenha then NaoConferem
    else Valida
  }

  /** The message a failed check shows. */
  function Mensagem(v: Validacao): string
  {
    match v
    case Valida => ""
    case CurtaDemais => ErroTamanho
    case NaoConferem => ErroConferem
  }

  /** The browser's constraint validation of the form, which must pass before
      `handleSubmit` runs at all: the three inputs are `required` (non-empty)
      and the new password has `minLength` 6. */
  predicate FormularioValido(senhaAtual: string, novaSenha: string, confirmarSenha: string)
  {
    senhaAtual != "" && novaSenha != "" && confirmarSenha != "" && |novaSenha| >= TamanhoMinimo
  }

  /** Through the form, the handler's length check never fails: its message is
      reached only when the browser's check is bypassed. */
  lemma LengthBranchOnlyWhenBypassed(senhaAtual: string, novaSenha: string, confirmarSenha: string)
    requires FormularioValido(senhaAtual, novaSenha, confirmarSenha)
    ensures Validar(novaSenha, confirmarSenha) != CurtaDemais
  {
  }

  /** Through the dialog, the password is sent exactly when the current password
      is filled in, the new one has at least 6 characters, and the confirmation
      repeats it. */
  lemma DialogSendsIff(senhaAtual: string, novaSenha: string, confirmarSenha: string)
    ensures FormularioValido(senhaAtual, novaSenha, confirmarSenha) && Validar(novaSenha, confirmarSenha) == Valida
      <==> senhaAtual != "" && |novaSenha| >= TamanhoMinimo && novaSenha == confirmarSenha
  {
  }

  /** A short password reports the length error even when the confirmation differs. */
  lemma LengthCheckedFirst(novaSenha: string, confirmarSenha: string)
    requires |novaSenha| < TamanhoMinimo && novaSenha != confirmarSenha
    ensures Mensagem(Validar(novaSenha, confirmarSenha)) == ErroTamanho
  {
  }

  /** The dialog's state: the three fields, the error line and the busy flag. */
  class TrocarSenhaForm {
    var senhaAtual: string
    var novaSenha: string
    var confirmarSenha: string
    var erro: string
    var loading: bool

    constructor ()
      ensures senhaAtual == "" && novaSenha == "" && confirmarSenha == ""
      ensures erro == "" && !loading
    {
      senhaAtual, novaSenha, confirmarSenha := "", "", "";
      erro := "";
      loading := false;
    }

    method SetCampos(atual: string, nova: string, confirmar: string)
      modifies this
      ensures senhaAtual == atual && novaSenha == nova && confirmarSenha == confirmar
      ensures erro == old(erro) && loading == old(loading)
    {
      senhaAtual, novaSenha, confirmarSenha := atual, nova, confirmar;
    }

    /** `handleSubmit`. `enviada` is the password handed to the provider, if
        any; `falhaProvedor` is the provider's error message, if it reports one
        (the success alert and closing the dialog are outside the model). */
    method HandleSubmit(falhaProvedor: Option<string>) returns (enviada: Option<string>)
      modifies this
      ensures var v := Validar(old(novaSenha), old(confirmarSenha));
        && (enviada.Some? <==> v == Valida)
        && (enviada.Some? ==> enviada.value == old(novaSenha))
        && erro == (if v != Valida then Mensagem(v)
                    else if falhaProvedor.Some? then falhaProvedor.value
                    else "")
        && loading == (if v == Valida then false else old(loading))
      ensures senhaAtual == old(senhaAtual) && novaSenha == old(novaSenha)
      ensures confirmarSenha == old(confirmarSenha)
    {
      erro := "";
      enviada := None;
      if |novaSenha| < TamanhoMinimo {
        erro := ErroTamanho;
        return;
      }
      if novaSenha != confirmarSenha {
        erro := ErroConferem;
        return;
      }
      loading := true;
      enviada := Some(novaSenha);
      if falhaProvedor.Some? {
        erro := falhaProvedor.value;
      }
      loading := false;
    }

    /** Submitting the form: the browser refuses it, with no change to the
        dialog, unless `FormularioValido` holds; otherwise `handleSubmit` runs. */
    method Submeter(falhaProvedor: Option<string>) returns (enviada: Option<string>)
      modifies this
      ensures var aceito := FormularioValido(old(senhaAtual), old(novaSenha), old(confirmarSenha));
        var v := Validar(old(novaSenha), old(confirmarSenha));
        && (enviada.Some? <==> aceito && v == Valida)
        && (enviada.Some? ==> enviada.value == old(novaSenha))
        && erro == (if !aceito then old(erro)
                    else if v != Valida then Mensagem(v)
                    else if falhaProvedor.Some? then falhaProvedor.value
                    else "")
        && loading == (if aceito && v == Valida then false else old(loading))
      ensures senhaAtual == old(senhaAtual) && novaSenha == old(novaSenha)
      ensures confirmarSenha == old(confirmarSenha)
    {
      if !FormularioValido(senhaAtual, novaSenha, confirmarSenha) {
        enviada := None;
        return;
      }
      enviada := HandleSubmit(falhaProvedor);
    }
  }
}
