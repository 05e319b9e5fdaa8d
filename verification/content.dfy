/** The fixed texts of the chat feature: the assistant's greeting, the
    fallback reply, the contact address and the system prompt around the
    knowledge base. */
module Content {
  import Text

  const ContactEmail: string := "mohamedamineezzaouia3@gmail.com"

  /** The content of the single message in `initialMessages`. */
  const Greeting: string :=
      "\U{1F44B} Hi there! I'm **AI Amino**, Mohamed Amine's virtual assistant. \n"
      + "\n"
      + "I'm here to help you learn about Mohamed Amine Ezzaouia - a **Computer and Financial Tec"
      + "hnology Engineer** specializing in **FinTech development**, **AI automation**, and **qua"
      + "ntitative finance**.\n"
      + "\n"
      + "Ask me about his experience, projects, skills, or anything else you'd like to know! \U{1F680}"

  /** The fallback reply up to the contact address. */
  const FallbackBeforeEmail: string :=
      "I'm **AI Amino**, Mohamed Amine's virtual assistant! I'm currently experiencing some tec"
      + "hnical difficulties, but I can still help you learn about:\n"
      + "\n"
      + "**\U{1F393} About Mohamed Amine**\n"
      + "\U{2022} Personal background and education at ESPRIT\n"
      + "\U{2022} Professional philosophy on AI automation in finance\n"
      + "\n"
      + "**\U{1F4BC} Professional Experience** \n"
      + "\U{2022} Current role as Quantitative AI Engineer at Vermeg\n"
      + "\U{2022} Previous work at BIAT and CRNE\n"
      + "\U{2022} Leadership experience in IEEE and Rotaract\n"
      + "\n"
      + "**\U{1F680} Featured Projects**\n"
      + "\U{2022} VaR Estimation System for risk management\n"
      + "\U{2022} Market Trading Simulator with real-time data\n"
      + "\U{2022} Nanocash Platform for digital payments\n"
      + "\U{2022} GORENT app for student housing\n"
      + "\U{2022} The Last Shade educational game\n"
      + "\n"
      + "**\U{1F6E0}\U{FE0F} Technical Skills**\n"
      + "\U{2022} Programming: Java, Python, JavaScript, SQL\n"
      + "\U{2022} AI/ML: Deep Learning, NLP, Computer Vision\n"
      + "\U{2022} FinTech: Options Pricing, Risk Management, Monte Carlo\n"
      + "\n"
      + "**\U{1F4DE} Contact Information**\n"
      + "\U{2022} Email: "

  /** The fallback reply after the contact address. */
  const FallbackAfterEmail: string :=
      "\n"
      + "\U{2022} Phone: +216 55 999 889\n"
      + "\U{2022} Location: Tunis, Tunisia\n"
      + "\n"
      + "Please try asking your question again, or feel free to reach out directly!"

  /** The reply used when the relay fails in any way. */
  const FallbackText: string := FallbackBeforeEmail + ContactEmail + FallbackAfterEmail

  /** The system prompt before the knowledge base. */
  const PromptHead: string :=
      "You are AI Amino, Mohamed Amine Ezzaouia's intelligent virtual assistant. You have compr"
      + "ehensive knowledge about Mohamed Amine's background, experience, skills, projects, and p"
      + "rofessional journey.\n"
      + "\n"
      + "Your role is to:\n"
      + "1. Provide accurate, detailed information about Mohamed Amine based on the knowledge bas"
      + "e\n"
      + "2. Answer questions about his experience, skills, projects, certifications, and contact "
      + "information\n"
      + "3. Be conversational, professional, and enthusiastic about his work\n"
      + "4. If asked about something not directly in the knowledge base, provide the closest rele"
      + "vant information\n"
      + "5. Always maintain a helpful and engaging tone\n"
      + "6. Use emojis sparingly but effectively to make responses more engaging\n"
      + "7. Format responses with proper markdown when appropriate\n"
      + "\n"
      + "Knowledge Base:\n"

  /** The system prompt after the knowledge base. */
  const PromptTail: string :=
      "\n"
      + "\n"
      + "When responding:\n"
      + "- Be specific and detailed when discussing his experience and projects\n"
      + "- Highlight his expertise in FinTech, AI, and quantitative finance\n"
      + "- Mention his leadership experience and community impact when relevant\n"
      + "- Always be accurate to the information provided\n"
      + "- If you don't have specific information, say so and offer related information instead\n"
      + "- End with helpful suggestions for follow-up questions when appropriate\n"

  /** The widget's catch-branch apology; it also names the contact address. */
  const ErrorApology: string := ApologyBeforeEmail + ContactEmail

  /** The apology up to the contact address. */
  const ApologyBeforeEmail: string :=
      "I apologize, but I'm experiencing some technical difficulties. Please try asking your "
      + "question again, or feel free to contact Mohamed Amine directly at "

  /** The chat handler's reply when the completion has no usable content. */
  const EmptyCompletionReply: string := "I'm sorry, I couldn't generate a response. Please try again."

  /** The fallback reply names the contact address, starting right after
      its opening part. */
  lemma FallbackNamesContact()
    ensures Text.At(FallbackText, |FallbackBeforeEmail|, ContactEmail)
  {
    Text.Splice(FallbackBeforeEmail, ContactEmail, FallbackAfterEmail);
  }

  /** The catch branch's apology also names the contact address, and ends
      with it. */
  lemma ApologyNamesContact()
    ensures Text.At(ErrorApology, |ApologyBeforeEmail|, ContactEmail)
    ensures |ErrorApology| == |ApologyBeforeEmail| + |ContactEmail|
  {
    Text.Suffix(ApologyBeforeEmail, ContactEmail);
  }
}
